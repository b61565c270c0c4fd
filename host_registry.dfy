/** The inventory of src/prelude/inventory/host_registry.rs: a host list
    changed in place, looked up by id and filtered by tag query. */
module HostRegistry {
  import opened Errors
  import opened Seqs
  import opened HostIds
  import opened HostTags
  import opened TagExpr
  import opened HostEntry
  import opened HostLists

  type Record = HostRecord<HostId, HostTag>

  /** The meaning of `get_hosts_by_tags` on a host list: hosts in order,
      each evaluated against its tag names; the first evaluation error
      ends the call with that error. */
  function SelectByQuery(hosts: seq<Record>, query: string): Result<seq<Record>> {
    if hosts == [] then Ok([])
    else
      match SelectByQuery(hosts[..|hosts| - 1], query)
      case Err(e) => Err(e)
      case Ok(selected) =>
        var host := hosts[|hosts| - 1];
        match EvalTagExpr(query, Names(host.tags))
        case Err(e) => Err(e)
        case Ok(b) => Ok(if b then selected + [host] else selected)
  }

  /** A query is evaluated per host only: with no host, any query, even a
      malformed one, selects the empty list. */
  lemma SelectByQueryNoHosts(query: string)
    ensures SelectByQuery([], query) == Ok([])
  {
  }

  /** With at least one host the selection fails exactly when the query
      does not parse, and with the parse error: never a partial list. */
  lemma {:induction false} SelectByQueryErrors(hosts: seq<Record>, query: string)
    requires hosts != []
    ensures SelectByQuery(hosts, query).Err? <==> ParseQuery(query).Err?
    ensures SelectByQuery(hosts, query).Err? ==> SelectByQuery(hosts, query).error == ParseQuery(query).error
  {
    var last := hosts[|hosts| - 1];
    EvalTagExprMeaning(query, Names(last.tags));
    if |hosts| > 1 {
      SelectByQueryErrors(hosts[..|hosts| - 1], query);
    }
  }

  /** The hosts whose tag names satisfy a well-formed tree, in order. */
  function Satisfying(hosts: seq<Record>, e: Expr): seq<Record>
    requires WellFormed(e)
  {
    Filter(hosts, (h: Record) => Denote(e, Names(h.tags)))
  }

  lemma SatisfyingAppendOne(hosts: seq<Record>, last: Record, e: Expr)
    requires WellFormed(e)
    ensures Satisfying(hosts + [last], e) ==
      Satisfying(hosts, e) + (if Denote(e, Names(last.tags)) then [last] else [])
  {
    FilterAppend(hosts, [last], (h: Record) => Denote(e, Names(h.tags)));
    assert [last][1..] == [];
  }

  /** When the query parses, the selection is exactly the hosts whose tag
      names satisfy it, in inventory order. */
  lemma {:induction false} SelectByQueryMeaning(hosts: seq<Record>, query: string)
    requires ParseQuery(query).Ok?
    ensures SelectByQuery(hosts, query) == Ok(Satisfying(hosts, ParseQuery(query).value))
  {
    if hosts != [] {
      var e := ParseQuery(query).value;
      var init := hosts[..|hosts| - 1];
      var last := hosts[|hosts| - 1];
      SelectByQueryMeaning(init, query);
      EvalTagExprMeaning(query, Names(last.tags));
      var b := Denote(e, Names(last.tags));
      assert EvalTagExpr(query, Names(last.tags)) == Ok(b);
      assert SelectByQuery(hosts, query) == Ok(if b then Satisfying(init, e) + [last] else Satisfying(init, e));
      assert hosts == init + [last];
      SatisfyingAppendOne(init, last, e);
      if !b {
        assert Satisfying(init, e) + [] == Satisfying(init, e);
      }
    }
  }

  /** An evaluation error of a prefix is the result for the whole list. */
  lemma {:induction false} SelectByQueryErrorSticks(hosts: seq<Record>, i: nat, query: string)
    requires i <= |hosts|
    requires SelectByQuery(hosts[..i], query).Err?
    ensures SelectByQuery(hosts, query) == SelectByQuery(hosts[..i], query)
  {
    if i < |hosts| {
      assert hosts[..|hosts| - 1][..i] == hosts[..i];
      SelectByQueryErrorSticks(hosts[..|hosts| - 1], i, query);
    } else {
      assert hosts[..i] == hosts;
    }
  }

  class Inventory {
    var hosts: seq<Record>

    /** `Inventory::new`: no hosts. */
    constructor ()
      ensures hosts == []
    {
      hosts := [];
    }

    /** An inventory holding a deserialized host list. */
    constructor FromHosts(hosts: seq<Record>)
      ensures this.hosts == hosts
    {
      this.hosts := hosts;
    }

    /** `add_host`: appended at the end, the others unchanged. */
    method AddHost(host: Record)
      modifies this
      ensures hosts == old(hosts) + [host]
    {
      hosts := hosts + [host];
    }

    /** `remove_host`: every host with the id is dropped, the others keep
        their order; no match, no change. */
    method RemoveHost(id: HostId)
      modifies this
      ensures hosts == WithoutId(old(hosts), id)
    {
      hosts := WithoutId(hosts, id);
    }

    /** `get_host_by_id`: the first host with an equal id, or `None`. */
    function GetHostById(id: HostId): (r: Option<Record>)
      reads this
      ensures r.None? <==> forall i :: 0 <= i < |hosts| ==> hosts[i].id != id
      ensures r.Some? ==> r.value.id == id
      ensures r.Some? ==>
        exists i :: 0 <= i < |hosts| && hosts[i] == r.value && (forall j :: 0 <= j < i ==> hosts[j].id != id)
    {
      FindById(hosts, id)
    }

    /** `get_hosts_by_tags`: one evaluation per host, in order, pushing
        the hosts that satisfy the query; an evaluation error is returned
        at once. */
    method GetHostsByTags(tagExpr: string) returns (r: Result<seq<Record>>)
      ensures r == SelectByQuery(hosts, tagExpr)
    {
      var selected: seq<Record> := [];
      for i := 0 to |hosts|
        invariant SelectByQuery(hosts[..i], tagExpr) == Ok(selected)
      {
        var host := hosts[i];
        assert hosts[..i + 1][..i] == hosts[..i];
        var matches := EvalTagExpr(tagExpr, Names(host.tags));
        if matches.Err? {
          SelectByQueryErrorSticks(hosts, i + 1, tagExpr);
          return Err(matches.error);
        }
        if matches.value {
          selected := selected + [host];
        }
      }
      assert hosts[..|hosts|] == hosts;
      r := Ok(selected);
    }
  }

  /** The inventory test, for any two distinct valid tags: two hosts
      tagged `t0` and `t1`; a query for one tag selects exactly the host
      carrying it. */
  method TagSelectionScenario(t0: string, t1: string) returns (hosts0: Result<seq<Record>>, hosts1: Result<seq<Record>>)
    requires MatchesTagRegex(t0) && MatchesTagRegex(t1) && t0 != t1
    ensures hosts0.Ok? && |hosts0.value| == 1 && hosts0.value[0].id == HostId("example-0")
    ensures hosts1.Ok? && |hosts1.value| == 1 && hosts1.value[0].id == HostId("example-1")
  {
    var h0 := new Host<HostId, HostTag>(HostId("example-0"), "127.0.1.1:22");
    h0.AddTag(HostTag(t0));
    var h1 := new Host<HostId, HostTag>(HostId("example-1"), "127.0.1.2:22");
    h1.AddTag(HostTag(t1));
    var r0 := h0.Record();
    var r1 := h1.Record();
    var inventory := new Inventory();
    inventory.AddHost(r0);
    inventory.AddHost(r1);
    assert inventory.hosts == [r0, r1];
    SelectTwo(r0, r1, t0);
    SelectTwo(r1, r0, t1);
    hosts0 := inventory.GetHostsByTags(t0);
    hosts1 := inventory.GetHostsByTags(t1);
  }

  lemma SelectTwo(r0: Record, r1: Record, t: string)
    requires MatchesTagRegex(t) && r0.tags == [HostTag(t)] && |r1.tags| == 1 && r1.tags[0].value != t
    ensures SelectByQuery([r0, r1], t) == Ok([r0]) && SelectByQuery([r1, r0], t) == Ok([r0])
  {
    SingleTagQuery(t, []);
    SelectByQueryMeaning([r0, r1], t);
    SelectByQueryMeaning([r1, r0], t);
    assert Names(r0.tags) == [t];
    assert Names(r1.tags) == [r1.tags[0].value];
    var keep := (h: Record) => Denote(Atom(t), Names(h.tags));
    assert keep(r0) && !keep(r1);
    assert [r0, r1][1..] == [r1];
    assert [r1, r0][1..] == [r0];
    assert [r1][1..] == [];
    assert [r0][1..] == [];
    assert Filter([r1], keep) == [];
    assert Filter([r0], keep) == [r0];
  }
}
