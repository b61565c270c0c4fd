/** Host selection of the command line, src/cli/mod.rs: which inventory is
    used and which of its hosts a command runs on. The inventory is
    represented by its host list. */
module Cli {
  import opened Errors
  import opened HostIds
  import opened HostTags
  import opened TagExpr
  import opened HostEntry
  import opened HostLists
  import opened HostRegistry

  /** `get_inventory`: the inventory loaded from the given path
      (`fromFile` stands for `Inventory::from_file`), or the empty one
      when no path is given or loading fails in any way. */
  function GetInventory(arg: Option<string>, fromFile: string -> Result<seq<Record>>): (hosts: seq<Record>)
    ensures arg.None? ==> hosts == []
    ensures arg.Some? && fromFile(arg.value).Err? ==> hosts == []
    ensures arg.Some? && fromFile(arg.value).Ok? ==> hosts == fromFile(arg.value).value
  {
    match arg
    case None => []
    case Some(path) =>
      match fromFile(path)
      case Ok(hosts) => hosts
      case Err(_) => []
  }

  /** `get_host_list`: a host id, when given, decides alone: an invalid id
      is an error, a known one selects its first host, an unknown one
      nothing. Otherwise a tag query selects the hosts satisfying it, with
      its errors; with neither, every host is selected. */
  function GetHostList(hosts: seq<Record>, idArg: Option<string>, tagsArg: Option<string>): (r: Result<seq<Record>>)
    ensures idArg.Some? ==> (r.Err? <==> !MatchesIdRegex(idArg.value))
    ensures idArg.Some? && r.Err? ==> r == Err(NewHostId(idArg.value).error)
    ensures idArg.Some? && r.Ok? && FindById(hosts, HostId(idArg.value)).Some? ==>
      r.value == [FindById(hosts, HostId(idArg.value)).value]
    ensures idArg.Some? && r.Ok? && FindById(hosts, HostId(idArg.value)).None? ==> r.value == []
    ensures idArg.None? && tagsArg.Some? ==> r == SelectByQuery(hosts, tagsArg.value)
    ensures idArg.None? && tagsArg.None? ==> r == Ok(hosts)
  {
    match idArg
    case Some(id) =>
      var hostId :- NewHostId(id);
      (match FindById(hosts, hostId)
       case Some(host) => Ok([host])
       case None => Ok([]))
    case None =>
      match tagsArg
      case Some(query) => SelectByQuery(hosts, query)
      case None => Ok(hosts)
  }

  /** With a host id the tag argument is ignored, and a valid id selects
      at most one host, which has that id. */
  lemma HostIdTakesPrecedence(hosts: seq<Record>, id: string, tags1: Option<string>, tags2: Option<string>)
    ensures GetHostList(hosts, Some(id), tags1) == GetHostList(hosts, Some(id), tags2)
    ensures GetHostList(hosts, Some(id), tags1).Ok? ==>
      |GetHostList(hosts, Some(id), tags1).value| <= 1 &&
      forall h :: h in GetHostList(hosts, Some(id), tags1).value ==> h in hosts && h.id.value == id
  {
  }

  /** With only a query, the selection is the hosts whose tags satisfy the
      query, in inventory order, or the query's parse error when there is
      a host to evaluate it on. */
  lemma TagQuerySelection(hosts: seq<Record>, query: string)
    ensures ParseQuery(query).Ok? ==>
      GetHostList(hosts, None, Some(query)) == Ok(Satisfying(hosts, ParseQuery(query).value))
    ensures ParseQuery(query).Err? && hosts != [] ==>
      GetHostList(hosts, None, Some(query)) == Err(ParseQuery(query).error)
  {
    if ParseQuery(query).Ok? {
      SelectByQueryMeaning(hosts, query);
    }
    if ParseQuery(query).Err? && hosts != [] {
      SelectByQueryErrors(hosts, query);
    }
  }

  /** Without an inventory argument no host can be selected except by an
      invalid id, which is an error. */
  lemma NoInventoryNoHosts(fromFile: string -> Result<seq<Record>>, idArg: Option<string>, tagsArg: Option<string>)
    ensures GetHostList(GetInventory(None, fromFile), idArg, tagsArg).Ok? ==>
      GetHostList(GetInventory(None, fromFile), idArg, tagsArg).value == []
  {
    if idArg.None? && tagsArg.Some? {
      SelectByQueryNoHosts(tagsArg.value);
    }
  }
}
