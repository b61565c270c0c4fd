/** Error kinds of the crate and the `Result`/`Option` wrappers the model uses
    in place of Rust's `Result<T, Box<dyn Error>>` and `Option<T>`. */
module Errors {

  /** The variants of the crate's error enum. The older enum of the `core`
      module has a subset of the same variants. `Boxed` stands for any foreign
      error that the `?` operator boxes into `Box<dyn Error>` (I/O, serde, the
      plain string errors of the expression evaluator); its text is its
      message. */
  datatype Error =
    | MissingInput(msg: string)
    | CommandExecutionFailed(msg: string)
    | UploadFailed(msg: string)
    | FileNotFound(msg: string)
    | IsADirectory(msg: string)
    | IsAbsolute(msg: string)
    | InvalidHostId(msg: string)
    | InvalidHostTag(msg: string)
    | InvalidToken(msg: string)
    | Other(msg: string)
    | Boxed(msg: string)

  datatype Option<+T> = None | Some(value: T)

  datatype Result<+T> = Ok(value: T) | Err(error: Error) {
    predicate IsFailure() { Err? }

    function PropagateFailure<U>(): Result<U>
      requires Err?
    {
      Err(error)
    }

    function Extract(): T
      requires Ok?
    {
      value
    }
  }

  /** Name of a variant, as the derived `Debug` prints it. */
  function VariantName(e: Error): string {
    match e
    case MissingInput(_) => "MissingInput"
    case CommandExecutionFailed(_) => "CommandExecutionFailed"
    case UploadFailed(_) => "UploadFailed"
    case FileNotFound(_) => "FileNotFound"
    case IsADirectory(_) => "IsADirectory"
    case IsAbsolute(_) => "IsAbsolute"
    case InvalidHostId(_) => "InvalidHostId"
    case InvalidHostTag(_) => "InvalidHostTag"
    case InvalidToken(_) => "InvalidToken"
    case Other(_) => "Other"
    case Boxed(_) => "Boxed"
  }

  /** A lower-case hexadecimal digit, as `{:x}` prints it. */
  function HexDigit(d: nat): (c: char)
    requires d < 16
    ensures IsHexDigit(c) && HexValue(c) == d
  {
    if d < 10 then (48 + d) as char else (87 + d) as char
  }

  predicate IsHexDigit(c: char) {
    '0' <= c <= '9' || 'a' <= c <= 'f'
  }

  function HexValue(c: char): (d: nat)
    requires IsHexDigit(c)
    ensures d < 16
  {
    if c <= '9' then c as int - 48 else c as int - 87
  }

  /** An ASCII control character that `Debug` prints as `\u{..}`: every
      code below the space except NUL, tab, line feed and carriage return,
      which have short escapes, and DEL. */
  predicate IsHexEscaped(c: char) {
    (c < ' ' && c != '\0' && c != '\t' && c != '\n' && c != '\r') || c == '\U{007F}'
  }

  /** How `Debug` for `str` prints one character: NUL, tab, carriage
      return, line feed, backslash and double quote by their short
      escapes, the other ASCII control characters as `\u{hex}`, anything
      else as itself. */
  function EscapeChar(c: char): (t: string)
    ensures |t| >= 1 && (t[0] == '\\' <==> (c == '\\' || c == '"' || c < ' ' || c == '\U{007F}'))
  {
    if c == '\0' then "\\0"
    else if c == '\t' then "\\t"
    else if c == '\r' then "\\r"
    else if c == '\n' then "\\n"
    else if c == '\\' then "\\\\"
    else if c == '"' then "\\\""
    else if IsHexEscaped(c) then
      var code := c as int;
      "\\u{" + (if code < 16 then [HexDigit(code)] else [HexDigit(code / 16), HexDigit(code % 16)]) + "}"
    else [c]
  }

  /** The escaped text of a whole string, character by character. */
  function Escape(s: string): (t: string)
    ensures |t| >= |s|
  {
    if s == [] then [] else EscapeChar(s[0]) + Escape(s[1..])
  }

  /** Reads escaped text back: the inverse of `Escape`, `None` on text no
      escape produces. */
  function Unescape(t: string): (r: Option<string>)
    decreases |t|
  {
    if t == [] then Some([])
    else if t[0] != '\\' then Prepend(t[0], Unescape(t[1..]))
    else if |t| < 2 then None
    else if t[1] == '0' then Prepend('\0', Unescape(t[2..]))
    else if t[1] == 't' then Prepend('\t', Unescape(t[2..]))
    else if t[1] == 'r' then Prepend('\r', Unescape(t[2..]))
    else if t[1] == 'n' then Prepend('\n', Unescape(t[2..]))
    else if t[1] == '\\' || t[1] == '"' then Prepend(t[1], Unescape(t[2..]))
    else if |t| >= 5 && t[1] == 'u' && t[2] == '{' && IsHexDigit(t[3]) && t[4] == '}' then
      Prepend(HexValue(t[3]) as char, Unescape(t[5..]))
    else if |t| >= 6 && t[1] == 'u' && t[2] == '{' && IsHexDigit(t[3]) && IsHexDigit(t[4]) && t[5] == '}' then
      Prepend((16 * HexValue(t[3]) + HexValue(t[4])) as char, Unescape(t[6..]))
    else None
  }

  function Prepend(c: char, r: Option<string>): Option<string> {
    if r.Some? then Some([c] + r.value) else None
  }

  /** Reading back one escaped character, followed by any text, gives the
      character in front of what the text reads back as. */
  lemma UnescapeChar(c: char, rest: string)
    ensures Unescape(EscapeChar(c) + rest) == Prepend(c, Unescape(rest))
  {
    var t := EscapeChar(c) + rest;
    if IsHexEscaped(c) && c != '\\' && c != '"' {
      var code := c as int;
      if code < 16 {
        assert t[..5] == "\\u{" + [HexDigit(code)] + "}";
        assert t[5..] == rest;
      } else {
        assert t[..6] == "\\u{" + [HexDigit(code / 16), HexDigit(code % 16)] + "}";
        assert t[6..] == rest;
      }
    } else if t[0] == '\\' {
      assert t[2..] == rest;
    } else {
      assert t[1..] == rest;
    }
  }

  /** `Unescape` inverts `Escape`: the escaped text determines the string. */
  lemma {:induction false} UnescapeEscape(s: string)
    ensures Unescape(Escape(s)) == Some(s)
  {
    if s != [] {
      UnescapeEscape(s[1..]);
      UnescapeChar(s[0], Escape(s[1..]));
      assert [s[0]] + s[1..] == s;
    }
  }

  /** Text without a backslash, a double quote or a control character is
      printed as it is. */
  lemma {:induction false} EscapePlain(s: string)
    requires forall i :: 0 <= i < |s| ==> s[i] != '\\' && s[i] != '"' && ' ' <= s[i] && s[i] != '\U{007F}'
    ensures Escape(s) == s
  {
    if s != [] {
      EscapePlain(s[1..]);
      assert [s[0]] + s[1..] == s;
    }
  }

  /** The parts of `name("middle")`. */
  lemma FramedParts(name: string, middle: string, text: string)
    requires text == name + "(\"" + middle + "\")"
    ensures |text| == |name| + |middle| + 4
    ensures text[..|name|] == name && text[|name|..|name| + 2] == "(\""
    ensures text[|text| - 2..] == "\")" && text[|name| + 2..|text| - 2] == middle
  {
  }

  /** `format!("{}", err)`: the crate's own errors display as their derived
      `Debug` form `Variant("message")`, the message escaped as `Debug`
      for `str` escapes it; a boxed foreign error displays its message. */
  function Display(e: Error): (text: string)
    ensures !e.Boxed? ==> |text| >= |VariantName(e)| + 4
    ensures !e.Boxed? ==> text[..|VariantName(e)|] == VariantName(e)
    ensures !e.Boxed? ==> text[|VariantName(e)|..|VariantName(e)| + 2] == "(\""
    ensures !e.Boxed? ==> text[|text| - 2..] == "\")"
    ensures !e.Boxed? ==> Unescape(text[|VariantName(e)| + 2..|text| - 2]) == Some(e.msg)
    ensures e.Boxed? ==> text == e.msg
  {
    if e.Boxed? then e.msg
    else
      var text := VariantName(e) + "(\"" + Escape(e.msg) + "\")";
      FramedParts(VariantName(e), Escape(e.msg), text);
      UnescapeEscape(e.msg);
      text
  }

  /** A backslash in a message, as every id and tag pattern quoted in an
      error carries, is printed doubled, and the plain text around it is
      printed as it is. */
  lemma EscapeDoublesBackslash(a: string, b: string)
    requires forall i :: 0 <= i < |a| ==> a[i] != '\\' && a[i] != '"' && ' ' <= a[i] && a[i] != '\U{007F}'
    requires forall i :: 0 <= i < |b| ==> b[i] != '\\' && b[i] != '"' && ' ' <= b[i] && b[i] != '\U{007F}'
    ensures Escape(a + ['\\'] + b) == a + ['\\', '\\'] + b
  {
    var slash: string := ['\\'];
    EscapeBackslash(slash);
    EscapeAppend(a + slash, b);
    EscapeAppend(a, slash);
    EscapePlain(a);
    EscapePlain(b);
  }

  /** A lone backslash is printed doubled. */
  lemma EscapeBackslash(slash: string)
    requires slash == ['\\']
    ensures Escape(slash) == ['\\', '\\']
  {
    assert slash[1..] == [];
  }

  /** Escaping distributes over concatenation. */
  lemma {:induction false} EscapeAppend(a: string, b: string)
    ensures Escape(a + b) == Escape(a) + Escape(b)
  {
    if a != [] {
      assert (a + b)[1..] == a[1..] + b;
      EscapeAppend(a[1..], b);
    } else {
      assert a + b == b;
    }
  }
}
