/** Validated host identifiers (src/prelude/inventory/host_id.rs). */
module HostIds {
  import opened Errors

  /** The pattern the source matches identifiers against, as its text. */
  const HostIdRegex: string := "^[a-zA-Z0-9_][a-zA-Z0-9_\\-]*$"

  /** `[a-zA-Z0-9_]`: the class of the first character (ASCII only). */
  predicate IsIdStart(c: char) {
    ('a' <= c <= 'z') || ('A' <= c <= 'Z') || ('0' <= c <= '9') || c == '_'
  }

  /** `[a-zA-Z0-9_\-]`: the class of every later character. */
  predicate IsIdChar(c: char) {
    IsIdStart(c) || c == '-'
  }

  /** Whether the whole of `s` matches the anchored pattern `HostIdRegex`. */
  predicate MatchesIdRegex(s: string) {
    |s| > 0 && IsIdStart(s[0]) && forall i :: 1 <= i < |s| ==> IsIdChar(s[i])
  }

  /** The identifier: a wrapped string, built only by `NewHostId`. */
  datatype HostId = HostId(value: string)

  function IdErrorMessage(src: string): string {
    "ID " + src + " does not match regex " + HostIdRegex
  }

  /** `HostId::new`: accepts `src` iff it matches the pattern, and then wraps
      it unchanged; otherwise an `InvalidHostId` error whose message quotes
      the input. */
  function NewHostId(src: string): (r: Result<HostId>)
    ensures r.Ok? <==> MatchesIdRegex(src)
    ensures r.Ok? ==> r.value.value == src
    ensures r.Err? ==> (r.error.InvalidHostId? && |r.error.msg| > 3 + |src|
      && r.error.msg[3..3 + |src|] == src)
  {
    if !MatchesIdRegex(src) then Err(InvalidHostId(IdErrorMessage(src)))
    else Ok(HostId(src))
  }

  /** `to_string`: the wrapped string. */
  function ToString(id: HostId): string {
    id.value
  }

  /** Every identifier the constructor returns matches the pattern. */
  predicate ValidHostId(id: HostId) {
    MatchesIdRegex(id.value)
  }

  /** Round trip: a string accepted by `new` comes back unchanged from
      `to_string`, and a valid identifier is rebuilt by `new` from its string. */
  lemma NewToStringRoundTrip(src: string, id: HostId)
    ensures NewHostId(src).Ok? ==> ToString(NewHostId(src).value) == src
    ensures ValidHostId(id) ==> NewHostId(ToString(id)) == Ok(id)
  {
  }

  /** A second reading of the pattern: a non-empty string over
      `[a-zA-Z0-9_-]` that does not start with `-`. */
  lemma {:induction false} IdRegexByCharacters(s: string)
    ensures MatchesIdRegex(s) <==>
      (s != [] && s[0] != '-' && forall i :: 0 <= i < |s| ==> IsIdChar(s[i]))
  {
    if s != [] && s[0] != '-' && (forall i :: 0 <= i < |s| ==> IsIdChar(s[i])) {
      assert IsIdChar(s[0]);
    }
  }

  /** No identifier contains `/`, so one identifier is always exactly one
      path component. */
  lemma NoSlashInId(s: string)
    requires MatchesIdRegex(s)
    ensures '/' !in s
  {
  }

  /** The edge cases of the pattern: the empty string and a leading `-` are
      rejected, a `-` after the first character is accepted, and the cases
      of the tests: "valid" is accepted, "(invalid)" and "example-0$" are
      rejected. */
  lemma IdRegexExamples()
    ensures NewHostId("").Err?
    ensures NewHostId("-abc").Err?
    ensures NewHostId("a-b").Ok?
    ensures NewHostId("valid") == Ok(HostId("valid"))
    ensures NewHostId("(invalid)").Err?
    ensures NewHostId("example-0$").Err?
  {
    assert !IsIdStart('-');
    assert !IsIdStart('(');
    var bad := "example-0$";
    assert !IsIdChar(bad[9]);
  }
}
