/** Host selection of the older command line, src/cli.rs: the inventory
    falls back to the local host, and tags are a comma-separated list
    matched with OR. */
module LegacyCli {
  import opened Errors
  import opened Json
  import opened HostEntry
  import opened LegacyInventory

  /** `char::is_whitespace`: the Unicode White_Space property. */
  predicate IsWhiteSpace(c: char) {
    ('\t' <= c <= '\r') || c == ' ' || c == '\U{0085}' || c == '\U{00A0}' || c == '\U{1680}' ||
    ('\U{2000}' <= c <= '\U{200A}') || c == '\U{2028}' || c == '\U{2029}' || c == '\U{202F}' ||
    c == '\U{205F}' || c == '\U{3000}'
  }

  /** `trim_start`. */
  function TrimStart(s: string): (r: string)
    ensures |r| <= |s| && r == s[|s| - |r|..]
    ensures forall i :: 0 <= i < |s| - |r| ==> IsWhiteSpace(s[i])
    ensures r == [] || !IsWhiteSpace(r[0])
  {
    if s == [] || !IsWhiteSpace(s[0]) then s else TrimStart(s[1..])
  }

  /** `trim_end`. */
  function TrimEnd(s: string): (r: string)
    ensures |r| <= |s| && r == s[..|r|]
    ensures forall i :: |r| <= i < |s| ==> IsWhiteSpace(s[i])
    ensures r == [] || !IsWhiteSpace(r[|r| - 1])
  {
    if s == [] || !IsWhiteSpace(s[|s| - 1]) then s else TrimEnd(s[..|s| - 1])
  }

  /** `trim`: white space removed from both ends. */
  function Trim(s: string): string {
    TrimEnd(TrimStart(s))
  }

  /** Trimming a text padded with white space gives back the text, when
      the text itself neither starts nor ends with white space. */
  lemma {:induction false} TrimPadded(pre: string, t: string, post: string)
    requires forall i :: 0 <= i < |pre| ==> IsWhiteSpace(pre[i])
    requires forall i :: 0 <= i < |post| ==> IsWhiteSpace(post[i])
    requires t == [] || (!IsWhiteSpace(t[0]) && !IsWhiteSpace(t[|t| - 1]))
    ensures Trim(pre + t + post) == t
  {
    var s := pre + t + post;
    if t == [] {
      BlankAppend(pre, post);
      assert s == (pre + post) + [];
      TrimStartPadded(pre + post, []);
      assert TrimStart(s) == [];
    } else {
      assert s == pre + (t + post);
      TrimStartPadded(pre, t + post);
      assert TrimStart(s) == t + post;
      TrimEndPadded(t, post);
    }
  }

  lemma BlankAppend(a: string, b: string)
    requires forall i :: 0 <= i < |a| ==> IsWhiteSpace(a[i])
    requires forall i :: 0 <= i < |b| ==> IsWhiteSpace(b[i])
    ensures forall i :: 0 <= i < |a + b| ==> IsWhiteSpace((a + b)[i])
  {
    forall i | 0 <= i < |a + b|
      ensures IsWhiteSpace((a + b)[i])
    {
      if i < |a| {
        assert (a + b)[i] == a[i];
      } else {
        assert (a + b)[i] == b[i - |a|];
      }
    }
  }

  lemma {:induction false} TrimStartPadded(pre: string, rest: string)
    requires forall i :: 0 <= i < |pre| ==> IsWhiteSpace(pre[i])
    requires rest == [] || !IsWhiteSpace(rest[0])
    ensures TrimStart(pre + rest) == rest
    decreases |pre|
  {
    if pre == [] {
      assert pre + rest == rest;
    } else {
      assert (pre + rest)[1..] == pre[1..] + rest;
      TrimStartPadded(pre[1..], rest);
    }
  }

  lemma {:induction false} TrimEndPadded(t: string, post: string)
    requires forall i :: 0 <= i < |post| ==> IsWhiteSpace(post[i])
    requires t == [] || !IsWhiteSpace(t[|t| - 1])
    ensures TrimEnd(t + post) == t
    decreases |post|
  {
    if post == [] {
      assert t + post == t;
    } else {
      var last := |post| - 1;
      assert (t + post)[..|t + post| - 1] == t + post[..last];
      TrimEndPadded(t, post[..last]);
    }
  }

  /** The pieces joined back with commas. */
  function JoinCommas(pieces: seq<string>): string
    requires |pieces| >= 1
  {
    if |pieces| == 1 then pieces[0] else pieces[0] + "," + JoinCommas(pieces[1..])
  }

  /** `split(",")`: the comma-free pieces between commas, one more than
      there are commas. */
  function SplitCommas(s: string): (pieces: seq<string>)
    ensures |pieces| >= 1
    ensures forall i :: 0 <= i < |pieces| ==> ',' !in pieces[i]
    ensures JoinCommas(pieces) == s
  {
    if s == [] then [[]]
    else
      var rest := SplitCommas(s[1..]);
      if s[0] == ',' then
        assert s == [','] + s[1..];
        [[]] + rest
      else
        var pieces := [[s[0]] + rest[0]] + rest[1..];
        assert pieces[1..] == rest[1..];
        assert s == [s[0]] + s[1..];
        pieces
  }

  /** Splitting the comma-joined list of comma-free pieces gives the
      pieces back. */
  lemma {:induction false} SplitJoin(pieces: seq<string>)
    requires |pieces| >= 1
    requires forall i :: 0 <= i < |pieces| ==> ',' !in pieces[i]
    ensures SplitCommas(JoinCommas(pieces)) == pieces
  {
    var s := JoinCommas(pieces);
    var split := SplitCommas(s);
    JoinInjective(split, pieces);
  }

  /** Where the first comma is, `|s|` when there is none. */
  function CommaIndex(s: string): (i: nat)
    ensures i <= |s|
    ensures forall j :: 0 <= j < i ==> s[j] != ','
    ensures i < |s| ==> s[i] == ','
    ensures ',' !in s ==> i == |s|
  {
    if s == [] || s[0] == ',' then 0 else 1 + CommaIndex(s[1..])
  }

  /** The first comma of `x,rest` is the one after `x` when `x` has none. */
  lemma {:induction false} CommaIndexAfter(x: string, rest: string)
    requires ',' !in x
    ensures CommaIndex(x + "," + rest) == |x|
  {
    var s := x + "," + rest;
    if x == [] {
      assert s[0] == ',';
    } else {
      assert s[0] == x[0];
      assert s[1..] == x[1..] + "," + rest;
      CommaIndexAfter(x[1..], rest);
    }
  }

  /** The joined text shows its pieces: the first piece runs up to the
      first comma, and there is a comma iff there is more than one piece. */
  lemma JoinShape(a: seq<string>)
    requires |a| >= 1
    requires forall i :: 0 <= i < |a| ==> ',' !in a[i]
    ensures var s := JoinCommas(a);
      (|a| == 1 <==> CommaIndex(s) == |s|) && a[0] == s[..CommaIndex(s)] &&
      (|a| > 1 ==> JoinCommas(a[1..]) == s[CommaIndex(s) + 1..])
  {
    var s := JoinCommas(a);
    if |a| == 1 {
      assert ',' !in s;
    } else {
      CommaIndexAfter(a[0], JoinCommas(a[1..]));
    }
  }

  /** Comma-free pieces are determined by their comma-joined text. */
  lemma {:induction false} JoinInjective(a: seq<string>, b: seq<string>)
    requires |a| >= 1 && |b| >= 1
    requires forall i :: 0 <= i < |a| ==> ',' !in a[i]
    requires forall i :: 0 <= i < |b| ==> ',' !in b[i]
    requires JoinCommas(a) == JoinCommas(b)
    ensures a == b
    decreases |a|
  {
    JoinShape(a);
    JoinShape(b);
    if |a| > 1 {
      JoinInjective(a[1..], b[1..]);
      assert a == [a[0]] + a[1..] && b == [b[0]] + b[1..];
    }
  }

  /** The tag list of the `-t` argument: each comma-separated piece,
      trimmed. */
  function ParseTagList(arg: string): (tags: seq<string>)
    ensures |tags| == |SplitCommas(arg)| >= 1
    ensures forall i :: 0 <= i < |tags| ==> tags[i] == Trim(SplitCommas(arg)[i])
  {
    var pieces := SplitCommas(arg);
    seq(|pieces|, i requires 0 <= i < |pieces| => Trim(pieces[i]))
  }

  /** `get_host_list`: a host id, when given, decides alone (its first
      host, or nothing); otherwise the listed tags select with OR; with
      neither argument, every host. */
  function GetHostList(inventory: Inventory, idArg: Option<string>, tagsArg: Option<string>): (r: seq<Record>)
    ensures idArg.Some? && GetHostById(inventory, idArg.value).Some? ==> r == [GetHostById(inventory, idArg.value).value]
    ensures idArg.Some? && GetHostById(inventory, idArg.value).None? ==> r == []
    ensures idArg.None? && tagsArg.Some? ==> r == GetHostsByTags(inventory, ParseTagList(tagsArg.value))
    ensures idArg.None? && tagsArg.None? ==> r == inventory.hosts
  {
    match idArg
    case Some(id) =>
      (match GetHostById(inventory, id)
       case Some(host) => [host]
       case None => [])
    case None =>
      match tagsArg
      case Some(tags) => GetHostsByTags(inventory, ParseTagList(tags))
      case None => inventory.hosts
  }

  /** With only a tag list, a host is selected iff one of the trimmed
      pieces is one of its tags. */
  lemma TagListSelection(inventory: Inventory, arg: string, h: Record)
    ensures h in GetHostList(inventory, None, Some(arg)) <==>
      h in inventory.hosts && exists i :: 0 <= i < |SplitCommas(arg)| && Trim(SplitCommas(arg)[i]) in h.tags
  {
    var tags := ParseTagList(arg);
    assert GetHostList(inventory, None, Some(arg)) == GetHostsByTags(inventory, tags);
  }

  /** `a, b` lists the tags `a` and `b`: the pieces of a comma-joined list
      of tags are the tags, whatever white space surrounds them. */
  lemma TagListOfTwo(a: string, b: string, pad: string)
    requires ',' !in a && ',' !in b
    requires a != [] && !IsWhiteSpace(a[0]) && !IsWhiteSpace(a[|a| - 1])
    requires b != [] && !IsWhiteSpace(b[0]) && !IsWhiteSpace(b[|b| - 1])
    requires forall i :: 0 <= i < |pad| ==> IsWhiteSpace(pad[i])
    requires ',' !in pad
    ensures ParseTagList(a + "," + pad + b) == [a, b]
  {
    assert ',' !in pad + b by {
      assert forall i :: 0 <= i < |pad + b| ==> (pad + b)[i] == if i < |pad| then pad[i] else b[i - |pad|];
    }
    assert JoinCommas([a, pad + b]) == a + "," + (pad + b);
    assert a + "," + pad + b == a + "," + (pad + b);
    SplitJoin([a, pad + b]);
    TrimPadded([], a, []);
    assert [] + a + [] == a;
    TrimPadded(pad, b, []);
    assert pad + b + [] == pad + b;
  }

  /** What the file system says about the inventory path. A program's run
      is its exit status and its standard output decoded as UTF-8, or the
      error of spawning it; a file's content is its text or the error of
      reading it. */
  datatype ProgramOutput = ProgramOutput(success: bool, stdout: Result<string>)
  datatype PathProbe =
    | Missing
    | Program(output: Result<ProgramOutput>)
    | Readable(text: Result<string>)

  /** `get_inventory`: no argument, a missing path or a program exiting
      with failure give the default localhost inventory; a program's
      output is read as JSON, a file as TOML (`parseJson`, `parseToml`
      stand for the two parsers), and every other failure is the
      result. */
  function GetInventory(arg: Option<string>, probe: string -> PathProbe,
                        parseJson: string -> Result<Value>, parseToml: string -> Result<Value>): (r: Result<Inventory>)
    ensures arg.None? ==> r == Ok(New())
    ensures arg.Some? && probe(arg.value).Missing? ==> r == Ok(New())
    ensures (arg.Some? && probe(arg.value).Program? && probe(arg.value).output.Ok? &&
             !probe(arg.value).output.value.success) ==> r == Ok(New())
    ensures arg.Some? && probe(arg.value).Program? && probe(arg.value).output.Err? ==>
      r == Err(probe(arg.value).output.error)
    ensures (arg.Some? && probe(arg.value).Program? && probe(arg.value).output.Ok? &&
             probe(arg.value).output.value.success) ==>
      r == (match probe(arg.value).output.value.stdout
            case Err(e) => Err(e)
            case Ok(content) =>
              (match parseJson(content)
               case Ok(doc) => FromValue(doc)
               case Err(e) => Err(e)))
    ensures arg.Some? && probe(arg.value).Readable? && probe(arg.value).text.Err? ==>
      r == Err(probe(arg.value).text.error)
    ensures arg.Some? && probe(arg.value).Readable? && probe(arg.value).text.Ok? ==>
      r == (match parseToml(probe(arg.value).text.value)
            case Ok(doc) => FromValue(doc)
            case Err(e) => Err(e))
  {
    match arg
    case None => Ok(New())
    case Some(path) =>
      match probe(path)
      case Missing => Ok(New())
      case Program(run) =>
        var output :- run;
        if !output.success then Ok(New())
        else
          var content :- output.stdout;
          var doc :- parseJson(content);
          FromValue(doc)
      case Readable(text) =>
        var content :- text;
        var doc :- parseToml(content);
        FromValue(doc)
  }

  /** An inventory document without `hosts`, from a file or a program,
      is the localhost inventory too. */
  lemma DocumentWithoutHosts(path: string, probe: string -> PathProbe,
                             parseJson: string -> Result<Value>, parseToml: string -> Result<Value>)
    requires probe(path).Readable? && probe(path).text.Ok?
    requires parseToml(probe(path).text.value) == Ok(EmptyObject)
    ensures GetInventory(Some(path), probe, parseJson, parseToml) == Ok(New())
  {
  }
}
