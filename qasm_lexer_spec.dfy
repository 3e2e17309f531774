/**
  The lexer of qasm_parser.py as functions on values: the comment filter
  `strip_comments`, one step of the `tokenize` scanner (the token pattern
  `TOKEN_RE` written out class by class) and the whole scan, `_next_id`, and
  what `collect_declared_identifiers` records before and after removing
  duplicates. The methods in qasm_lexer.dfy run the same loops and are
  proved equal to these functions.

  The regular expressions are not interpreted: each pattern the source uses
  is written out as the matcher it denotes, with `\d` read as the ASCII
  digits.
*/
module QasmLexerSpec {
  import opened Wrappers
  import opened Text

  // ---------------------------------------------------------------------
  // strip_comments
  // ---------------------------------------------------------------------

  /**
    `RE_BLOCK_COMMENT.sub("", s)`, read left to right: where an opening
    marker (slash, star) starts, everything up to and including the first
    closing marker (star, slash) that starts after it is removed and the
    pass goes on after it. An opening marker that no closing marker follows
    matches nowhere, and neither does any later one, so from there on the
    text is kept as it is.
  */
  function StripBlockComments(s: string): string
    decreases |s|
  {
    if s == [] then []
    else if |s| >= 2 && s[0] == '/' && s[1] == '*' then
      // `IndexOfSub` gives `|s|` for a marker that does not occur (`IndexOfSubSpec`)
      var e := IndexOfSub(s, "*/", 2);
      if e + 2 > |s| then s else StripBlockComments(s[e + 2..])
    else [s[0]] + StripBlockComments(s[1..])
  }

  /**
    `RE_LINE_COMMENT.sub("", s)`, read left to right: from each `//` up to,
    and not including, the next line break or the end of the text.
  */
  function StripLineComments(s: string): string
    decreases |s|
  {
    if s == [] then []
    else if |s| >= 2 && s[0] == '/' && s[1] == '/' then StripLineComments(s[2 + FirstWhere(s[2..], IsNewline)..])
    else [s[0]] + StripLineComments(s[1..])
  }

  /** `strip_comments`: block comments first, then line comments. */
  function StripComments(src: string): string {
    StripLineComments(StripBlockComments(src))
  }

  // ---------------------------------------------------------------------
  // TOKEN_RE, TYPE_MAP, KEYWORDS
  // ---------------------------------------------------------------------

  /** The named groups of `TOKEN_RE`, in the order the alternation tries them. */
  datatype TokenClass = Id | Number | Str | Arrow | Op | Symbol {
    /** The group's name, `m.lastgroup`. */
    function Name(): string {
      match this
      case Id => "ID"
      case Number => "NUMBER"
      case Str => "STRING"
      case Arrow => "ARROW"
      case Op => "OP"
      case Symbol => "SYMBOL"
    }

    /** The type name `TYPE_MAP` gives the group (`TypeOfGroup`). */
    function TypeName(): string {
      match this
      case Id => "identifier"
      case Number => "number"
      case Str => "string"
      case Arrow => "arrow"
      case Op => "operator"
      case Symbol => "symbol"
    }

    /** The position of the group in the alternation. */
    function Rank(): nat {
      match this
      case Id => 0
      case Number => 1
      case Str => 2
      case Arrow => 3
      case Op => 4
      case Symbol => 5
    }
  }

  const Classes: seq<TokenClass> := [Id, Number, Str, Arrow, Op, Symbol]

  const TypeMap: map<string, string> := map[
    "ID" := "identifier",
    "NUMBER" := "number",
    "STRING" := "string",
    "ARROW" := "arrow",
    "OP" := "operator",
    "SYMBOL" := "symbol"]

  const Keywords: set<string> := {
    "OPENQASM", "qreg", "creg", "gate", "opaque", "barrier",
    "measure", "reset", "if", "include", "U", "CX",
    "qubit", "bit", "uint", "int", "let", "const", "def"}

  /** The two-character operators of the `OP` group. */
  const Operators: set<string> := {"==", "!=", "<=", ">=", "+=", "-=", "*=", "/=", "&&", "||", "::"}

  /** The characters of the `SYMBOL` group. */
  const Symbols: set<char> := {
    '{', '}', '[', ']', '(', ')', ';', ',', '.', ':', '<', '>',
    '+', '-', '*', '/', '%', '&', '|', '^', '~', '?', '='}

  predicate IsIdStart(c: char) { IsAsciiLetter(c) || c == '_' }

  /** `[A-Za-z_][A-Za-z0-9_]*` at the start of `s`: the length of the match, 0 for none. */
  function IdLen(s: string): (n: nat)
    ensures n <= |s|
  {
    if s != [] && IsIdStart(s[0]) then 1 + RunLen(s[1..], IsWordChar) else 0
  }

  /** `(?:[eE][+-]?\d+)?`: an exponent is taken only when it is complete. */
  function ExponentLen(t: string): (n: nat)
    ensures n <= |t|
  {
    if t == [] || (t[0] != 'e' && t[0] != 'E') then 0
    else
      var sign := if |t| > 1 && (t[1] == '+' || t[1] == '-') then 1 else 0;
      var k := RunLen(t[1 + sign..], IsAsciiDigit);
      if k > 0 then 1 + sign + k else 0
  }

  /**
    `(?:\d+\.\d*|\d*\.\d+|\d+)` followed by an optional exponent. The first
    alternative takes digits, a dot and the digits after it; the second is
    reached only for a dot that starts the text and has a digit after it;
    the third takes the digits alone.
  */
  function MantissaLen(s: string): (n: nat)
    ensures n <= |s|
  {
    var d := RunLen(s, IsAsciiDigit);
    if d > 0 && d < |s| && s[d] == '.' then d + 1 + RunLen(s[d + 1..], IsAsciiDigit)
    else if d == 0 && |s| >= 2 && s[0] == '.' && IsAsciiDigit(s[1]) then 1 + RunLen(s[1..], IsAsciiDigit)
    else d
  }

  function NumberLen(s: string): (n: nat)
    ensures n <= |s|
  {
    var m := MantissaLen(s);
    if m == 0 then 0 else m + ExponentLen(s[m..])
  }

  /**
    The body of `"([^"\\]|\\.)*"` from position `j`: any character but a
    quote or a backslash (a line break included), or a backslash and any
    character but a line break. The length up to and including the closing
    quote, or 0 when the body stops before one.
  */
  function StringBodyLen(s: string, j: nat): (n: nat)
    requires 1 <= j <= |s|
    ensures n == 0 || j < n <= |s|
    decreases |s| - j
  {
    if j == |s| then 0
    else if s[j] == '"' then j + 1
    else if s[j] != '\\' then StringBodyLen(s, j + 1)
    else if j + 1 < |s| && s[j + 1] != '\n' then StringBodyLen(s, j + 2)
    else 0
  }

  function StringLen(s: string): (n: nat)
    ensures n <= |s|
  {
    if s != [] && s[0] == '"' then StringBodyLen(s, 1) else 0
  }

  function ArrowLen(s: string): (n: nat)
    ensures n <= |s|
  {
    if StartsWith(s, "->") then 2 else 0
  }

  function OpLen(s: string): (n: nat)
    ensures n <= |s|
  {
    if |s| >= 2 && s[..2] in Operators then 2 else 0
  }

  function SymbolLen(s: string): (n: nat)
    ensures n <= |s|
  {
    if s != [] && s[0] in Symbols then 1 else 0
  }

  /** The length of the match of one group at the start of `s`; 0 when it does not match. */
  function ClassLen(c: TokenClass, s: string): (n: nat)
    ensures n <= |s|
  {
    match c
    case Id => IdLen(s)
    case Number => NumberLen(s)
    case Str => StringLen(s)
    case Arrow => ArrowLen(s)
    case Op => OpLen(s)
    case Symbol => SymbolLen(s)
  }

  /** The first of `classes` whose group matches at the start of `s`, and the length it matches. */
  function FirstMatch(classes: seq<TokenClass>, s: string): (r: Option<(TokenClass, nat)>)
    ensures r.Some? ==> 0 < r.value.1 <= |s| && r.value.0 in classes && r.value.1 == ClassLen(r.value.0, s)
    decreases |classes|
  {
    if classes == [] then None
    else if ClassLen(classes[0], s) > 0 then Some((classes[0], ClassLen(classes[0], s)))
    else FirstMatch(classes[1..], s)
  }

  /** `TOKEN_RE.match(src, i)` on `s == src[i..]`: the alternation tries the groups in order. */
  function MatchAt(s: string): (r: Option<(TokenClass, nat)>)
    ensures r.Some? ==> 0 < r.value.1 <= |s| && r.value.1 == ClassLen(r.value.0, s)
  {
    FirstMatch(Classes, s)
  }

  /** A yielded token: `{"typ": typ, "val": val}`. */
  datatype Token = Token(typ: string, val: string)

  /**
    `str.lower` on a group name. The names are ASCII, so only `A`..`Z`
    change.
  */
  function LowerAscii(s: string): string {
    seq(|s|, k requires 0 <= k < |s| => if 'A' <= s[k] <= 'Z' then (s[k] as int + 32) as char else s[k])
  }

  /**
    The token type of a match of group `c` with value `val`: the group
    name looked up in `TYPE_MAP`, falling back to the lower-cased name, and
    then `"keyword"` for an identifier in `KEYWORDS`.
  */
  function TypeOf(c: TokenClass, val: string): string {
    var raw := c.Name();
    var typ := if raw in TypeMap then TypeMap[raw] else LowerAscii(raw);
    if typ == "identifier" && val in Keywords then "keyword" else typ
  }

  // ---------------------------------------------------------------------
  // tokenize
  // ---------------------------------------------------------------------

  /** What the scanner does at one position: match a token of a group, or step over a blank. */
  datatype Piece = Yield(group: TokenClass, val: string) | Skip(blank: char)

  /**
    The exception `tokenize` is meant to raise for a character that starts
    no token: `SyntaxError` naming the character and its position.
  */
  datatype LexError = UnexpectedChar(ch: char, pos: nat)

  /** The pieces of a scan up to its end or its error, and the error. */
  datatype Scan = Scan(pieces: seq<Piece>, err: Option<LexError>)

  /** A token matcher: for the text from the current position on, the group and length of the token it starts. */
  type Matcher = string -> Option<(TokenClass, nat)>

  /** Each match of `m` is non-empty and fits the text, so the scan moves forward. */
  ghost predicate Consumes(m: Matcher) {
    forall s :: m(s).Some? ==> 0 < m(s).value.1 <= |s|
  }

  /**
    The `while i < n` loop of `tokenize` from position `i`, over the matcher
    `m`. Only a matched token or a blank moves the scan on; any other
    character ends it with an error.
  */
  function ScanWith(m: Matcher, src: string, i: nat): Scan
    requires Consumes(m) && i <= |src|
    decreases |src| - i
  {
    if i == |src| then Scan([], None)
    else
      var r := m(src[i..]);
      if r.Some? then
        var val := src[i..i + r.value.1];
        var rest := ScanWith(m, src, i + r.value.1);
        Scan([Yield(r.value.0, val)] + rest.pieces, rest.err)
      else if IsSpace(src[i]) then
        var rest := ScanWith(m, src, i + 1);
        Scan([Skip(src[i])] + rest.pieces, rest.err)
      else Scan([], Some(UnexpectedChar(src[i], i)))
  }

  /** `tokenize(src)` from position `i`, matching with `TOKEN_RE`. */
  function ScanFrom(src: string, i: nat): Scan
    requires i <= |src|
  {
    ScanWith(MatchAt, src, i)
  }

  /** The token the generator yields for a match: typed, keywords tagged. */
  function TokenOf(p: Piece): Token
    requires p.Yield?
  {
    Token(TypeOf(p.group, p.val), p.val)
  }

  /** How the loop gives a match its token type: `TypeOf` in `tokenize`. */
  type Typer = (TokenClass, string) -> string

  /** The tokens among the pieces, in order, each typed by `typer`. */
  function TokensWith(typer: Typer, pieces: seq<Piece>): seq<Token>
    decreases |pieces|
  {
    if pieces == [] then []
    else
      (if pieces[0].Yield? then [Token(typer(pieces[0].group, pieces[0].val), pieces[0].val)] else [])
      + TokensWith(typer, pieces[1..])
  }

  /** The tokens among the pieces, in order: what the generator yields. */
  function TokensOf(pieces: seq<Piece>): seq<Token> {
    TokensWith(TypeOf, pieces)
  }

  /** The text a piece stands for: the matched text, or the blank itself. */
  function PieceText(p: Piece): string {
    if p.Yield? then p.val else [p.blank]
  }

  /** The text the pieces stand for. */
  function Flatten(pieces: seq<Piece>): string
    decreases |pieces|
  {
    if pieces == [] then []
    else PieceText(pieces[0]) + Flatten(pieces[1..])
  }

  // ---------------------------------------------------------------------
  // The exception of tokenize
  // ---------------------------------------------------------------------

  /** A piece of a `str.format` template: literal text, or an automatically numbered field (`{}`, `{!r}`). */
  datatype FormatPart = Literal(text: string) | Field(repr: bool)

  /** The message template of the exception in `tokenize`, cut at its four fields. */
  const ErrorTemplate: seq<FormatPart> := [
    Literal("Unexpected character "), Field(true), Literal(" at "), Field(false),
    Literal(":"), Field(false), Literal(" near '"), Field(false), Literal("'")]

  /** The number of fields of a template. */
  function FieldCount(parts: seq<FormatPart>): nat
    decreases |parts|
  {
    if parts == [] then 0 else (if parts[0].Field? then 1 else 0) + FieldCount(parts[1..])
  }

  /** `repr` of a one-character string, without Python's escaping of special characters. */
  function Repr(s: string): string {
    "'" + s + "'"
  }

  /**
    `template.format(*args)` with the fields numbered from `k`: the message,
    or, as `IndexError`, the number of the first field that has no argument.
  */
  function Format(parts: seq<FormatPart>, args: seq<string>, k: nat): Result<string, nat>
    decreases |parts|
  {
    if parts == [] then Success([])
    else match parts[0]
      case Literal(t) =>
        var rest := Format(parts[1..], args, k);
        if rest.Success? then Success(t + rest.value) else rest
      case Field(r) =>
        if k >= |args| then Failure(k)
        else
          var rest := Format(parts[1..], args, k + 1);
          if rest.Success? then Success((if r then Repr(args[k]) else args[k]) + rest.value) else rest
  }

  /** `s.replace("\n", "\\n")` */
  function EscapeNewlines(s: string): string
    decreases |s|
  {
    if s == [] then [] else (if s[0] == '\n' then "\\n" else [s[0]]) + EscapeNewlines(s[1..])
  }

  /** `src[i:i+20]` with its line breaks written as backslash-n. */
  function Snippet(src: string, i: nat): string
    requires i <= |src|
  {
    EscapeNewlines(src[i..if i + 20 <= |src| then i + 20 else |src|])
  }

  /** The exception a failed scan ends in. */
  datatype Raised = SyntaxError(message: string) | IndexError(index: nat)

  /**
    What `tokenize` raises, as written, at an unexpected character: the
    message is formatted from the character and the snippet alone.
  */
  function RaisedAsWritten(src: string, e: LexError): Raised
    requires e.pos <= |src|
  {
    match Format(ErrorTemplate, [[e.ch], Snippet(src, e.pos)], 0)
    case Success(m) => SyntaxError(m)
    case Failure(k) => IndexError(k)
  }

  /** The 1-based line of position `pos`: one more than the line breaks before it. */
  function LineOf(src: string, pos: nat): nat
    requires pos <= |src|
  {
    1 + |Filter(src[..pos], IsNewline)|
  }

  /** The 1-based column of the character that follows `s`, counted on its line. */
  function ColumnAfter(s: string): nat
    decreases |s|
  {
    if s == [] || s[|s| - 1] == '\n' then 1 else 1 + ColumnAfter(s[..|s| - 1])
  }

  /**
    What the message evidently means to report: the character, its line and
    column, and the snippet, one argument for each field.
  */
  function RaisedIntended(src: string, e: LexError): Raised
    requires e.pos <= |src|
  {
    var args := [[e.ch], NatToString(LineOf(src, e.pos)), NatToString(ColumnAfter(src[..e.pos])), Snippet(src, e.pos)];
    match Format(ErrorTemplate, args, 0)
    case Success(m) => SyntaxError(m)
    case Failure(k) => IndexError(k)
  }

  // ---------------------------------------------------------------------
  // _next_id and collect_declared_identifiers
  // ---------------------------------------------------------------------

  /** `_next_id`: the value of the token after `idx` when that token is an identifier. */
  function NextId(tokens: seq<Token>, idx: nat): Option<string> {
    if idx + 1 < |tokens| && tokens[idx + 1].typ == "identifier" then Some(tokens[idx + 1].val) else None
  }

  /** The keys of the result, in the order the dict literal lists them. */
  const DeclKinds: seq<string> := ["qreg", "creg", "qubit", "bit", "gate"]

  /**
    What the token at `i` records, as (key, name): a declaration keyword
    followed by a non-empty identifier; `gate` and `opaque` both record under
    `"gate"`.
  */
  function RecordAt(tokens: seq<Token>, i: nat): (r: Option<(string, string)>)
    requires i < |tokens|
    ensures r.Some? ==> r.value.0 in DeclKinds && r.value.1 != [] && NextId(tokens, i) == Some(r.value.1)
  {
    var t := tokens[i];
    if t.typ != "keyword" then None
    else
      var name := NextId(tokens, i);
      if name.None? || name.value == [] then None
      else if t.val in {"qreg", "creg", "qubit", "bit"} then Some((t.val, name.value))
      else if t.val in {"gate", "opaque"} then Some(("gate", name.value))
      else None
  }

  /** The names recorded under `key` by the tokens before `i`, in token order, duplicates kept. */
  function RecordedUpTo(tokens: seq<Token>, i: nat, key: string): seq<string>
    requires i <= |tokens|
    decreases i
  {
    if i == 0 then []
    else
      RecordedUpTo(tokens, i - 1, key)
      + match RecordAt(tokens, i - 1) case Some((k, name)) => (if k == key then [name] else []) case None => []
  }

  /** The de-duplication loop: each value at its first occurrence, the later ones dropped. */
  function Dedup(vals: seq<string>): seq<string>
    decreases |vals|
  {
    if vals == [] then []
    else
      var d := Dedup(vals[..|vals| - 1]);
      if vals[|vals| - 1] in d then d else d + [vals[|vals| - 1]]
  }

  /** `collect_declared_identifiers`: every key with its recorded names, duplicates removed. */
  function Collected(tokens: seq<Token>): map<string, seq<string>> {
    map key | key in DeclKinds :: Dedup(RecordedUpTo(tokens, |tokens|, key))
  }
}
