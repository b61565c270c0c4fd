/** Validated host tags (src/prelude/inventory/host_tag.rs). */
module HostTags {
  import opened Errors

  /** The pattern the source matches tags against, as its text. */
  const HostTagRegex: string := "^[^!\\&\\|\\t\\n\\r\\f\\(\\) ]+$"

  /** Form feed, the `\f` of the pattern. */
  const FormFeed: char := '\U{000C}'

  /** `[^!\&\|\t\n\r\f\(\) ]`: any character but these ten. Other Unicode
      white space (vertical tab, no-break space, ...) is allowed. */
  predicate IsTagChar(c: char) {
    c != '!' && c != '&' && c != '|' && c != '\t' && c != '\n' && c != '\r'
    && c != FormFeed && c != '(' && c != ')' && c != ' '
  }

  /** Whether the whole of `s` matches the anchored pattern `HostTagRegex`. */
  predicate MatchesTagRegex(s: string) {
    |s| > 0 && forall i :: 0 <= i < |s| ==> IsTagChar(s[i])
  }

  /** The tag: a wrapped string, built only by `NewHostTag`. */
  datatype HostTag = HostTag(value: string)

  function TagErrorMessage(src: string): string {
    "Tag " + src + " does not match regex " + HostTagRegex
  }

  /** `HostTag::new`: accepts `src` iff it is non-empty and free of the ten
      excluded characters, and then wraps it unchanged; otherwise an
      `InvalidHostTag` error whose message quotes the input. */
  function NewHostTag(src: string): (r: Result<HostTag>)
    ensures r.Ok? <==> MatchesTagRegex(src)
    ensures r.Ok? ==> r.value.value == src
    ensures r.Err? ==> (r.error.InvalidHostTag? && |r.error.msg| > 4 + |src|
      && r.error.msg[4..4 + |src|] == src)
  {
    if !MatchesTagRegex(src) then Err(InvalidHostTag(TagErrorMessage(src)))
    else Ok(HostTag(src))
  }

  /** `to_string`: the wrapped string. */
  function ToString(tag: HostTag): string {
    tag.value
  }

  predicate ValidHostTag(tag: HostTag) {
    MatchesTagRegex(tag.value)
  }

  /** The plain strings of a tag list, as `get_hosts_by_tags` hands them to
      the evaluator. */
  function Names(tags: seq<HostTag>): (names: seq<string>)
    ensures |names| == |tags|
    ensures forall i :: 0 <= i < |tags| ==> names[i] == tags[i].value
  {
    if tags == [] then [] else [tags[0].value] + Names(tags[1..])
  }

  /** Round trip between `new` and `to_string`. */
  lemma NewToStringRoundTrip(src: string, tag: HostTag)
    ensures NewHostTag(src).Ok? ==> ToString(NewHostTag(src).value) == src
    ensures ValidHostTag(tag) ==> NewHostTag(ToString(tag)) == Ok(tag)
  {
  }

  /** A tag is rejected exactly when it is empty or one of its characters is
      one of the ten excluded ones. */
  lemma TagRejectedByCharacter(s: string)
    ensures NewHostTag(s).Err? <==> s == [] || exists i :: 0 <= i < |s| && !IsTagChar(s[i])
  {
  }

  /** The cases of the tests: "valid" is accepted; "(invalid)" and "&foo"
      (the tag of the rejected inventory document) are rejected. */
  lemma TagRegexExamples()
    ensures NewHostTag("valid") == Ok(HostTag("valid"))
    ensures NewHostTag("(invalid)").Err?
    ensures NewHostTag("&foo").Err?
    ensures NewHostTag("").Err?
  {
    assert !IsTagChar("(invalid)"[0]);
    assert !IsTagChar("&foo"[0]);
  }
}
