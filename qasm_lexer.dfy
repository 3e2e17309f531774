/**
  The loops of qasm_parser.py: the `tokenize` generator and
  `collect_declared_identifiers`. Each method is proved to compute the
  function of `QasmLexerSpec` that describes it, so the lemmas of
  `QasmLexerProofs` hold of what the methods return.
*/
module QasmLexer {
  import opened Wrappers
  import opened Text
  import opened QasmLexerSpec
  import opened QasmLexerProofs

  /**
    `tokenize(src)`: the tokens the generator yields, in order, and the
    character it refuses, if any. A refused character ends the scan; the
    tokens before it are those a consumer of the generator has already
    received.
  */
  method Tokenize(src: string) returns (tokens: seq<Token>, err: Option<LexError>)
    ensures tokens == TokensOf(ScanFrom(src, 0).pieces)
    ensures err == ScanFrom(src, 0).err
  {
    MatchAtShape();
    tokens, err := TokenizeWith(MatchAt, TypeOf, src);
  }

  /**
    The loop of `tokenize`, with `TOKEN_RE.match` passed in as `m` and the
    typing of a match as `typer`: at each position a match yields its token
    and moves past it, a blank is stepped over, and any other character
    ends the scan.
  */
  method TokenizeWith(m: Matcher, typer: Typer, src: string) returns (tokens: seq<Token>, err: Option<LexError>)
    requires Consumes(m)
    ensures tokens == TokensWith(typer, ScanWith(m, src, 0).pieces)
    ensures err == ScanWith(m, src, 0).err
  {
    tokens := [];
    var i := 0;
    var n := |src|;
    // the pieces of the scan so far: the tokens yielded and the blanks skipped
    ghost var done: seq<Piece> := [];
    TokenizeStarts(m, typer, src);
    while i < n
      invariant TokenizeInv(m, typer, src, i, done, tokens)
      decreases n - i
    {
      var i', done', tokens', refused := TokenizePass(m, typer, src, i, done, tokens);
      if refused.Some? {
        return tokens, refused;
      }
      i, done, tokens := i', done', tokens';
    }
    TokenizeEnds(m, typer, src, done, tokens);
    err := None;
  }

  /**
    One pass of the loop of `tokenize` at `i`: a match yields its token and
    moves past it, a blank is stepped over, and any other character is
    refused.
  */
  method TokenizePass(m: Matcher, typer: Typer, src: string, i: nat, ghost done: seq<Piece>, tokens: seq<Token>)
    returns (i': nat, ghost done': seq<Piece>, tokens': seq<Token>, refused: Option<LexError>)
    requires TokenizeInv(m, typer, src, i, done, tokens) && i < |src|
    ensures refused.None? ==> i < i' && TokenizeInv(m, typer, src, i', done', tokens')
    ensures refused.Some? ==> tokens == TokensWith(typer, ScanWith(m, src, 0).pieces) && refused == ScanWith(m, src, 0).err
  {
    var r := m(src[i..]);
    if r.Some? {
      var (group, len) := r.value;
      TokenizeMatched(m, typer, src, i, done, tokens, group, len);
      var val := src[i..i + len];
      return i + len, done + [Yield(group, val)], tokens + [Token(typer(group, val), val)], None;
    }
    var ch := src[i];
    if IsSpace(ch) {
      TokenizeSkipped(m, typer, src, i, done, tokens);
      return i + 1, done + [Skip(ch)], tokens, None;
    }
    TokenizeRefused(m, typer, src, i, done, tokens);
    return i, done, tokens, Some(UnexpectedChar(ch, i));
  }

  /** The inner loop of the de-duplication pass: keep each value the first time it is seen. */
  method DedupKeepOrder(vals: seq<string>) returns (dedup: seq<string>)
    ensures dedup == Dedup(vals)
  {
    var seen: set<string> := {};
    dedup := [];
    for j := 0 to |vals|
      invariant dedup == Dedup(vals[..j])
      invariant forall x :: x in seen <==> x in dedup
    {
      var v := vals[j];
      assert vals[..j + 1][..j] == vals[..j];
      if v !in seen {
        seen := seen + {v};
        dedup := dedup + [v];
      }
    }
    assert vals[..|vals|] == vals;
  }

  /**
    `collect_declared_identifiers(tokens)`: one pass over the tokens that
    appends each declared name under its key, then a pass that removes the
    duplicates of every key.
  */
  method CollectDeclaredIdentifiers(tokens: seq<Token>) returns (out: map<string, seq<string>>)
    ensures out == Collected(tokens)
  {
    var recorded := RecordDeclarations(tokens);
    out := DedupEachKey(recorded);
  }

  /**
    The first pass of `collect_declared_identifiers`: a keyword `qreg`,
    `creg`, `qubit` or `bit` followed by a non-empty identifier appends it
    under its own key, `gate` or `opaque` under `"gate"`.
  */
  method RecordDeclarations(tokens: seq<Token>) returns (out: map<string, seq<string>>)
    ensures HasDeclKeys(out)
    ensures forall key :: key in DeclKinds ==> out[key] == RecordedUpTo(tokens, |tokens|, key)
  {
    out := map["qreg" := [], "creg" := [], "qubit" := [], "bit" := [], "gate" := []];
    var i := 0;
    var n := |tokens|;
    CollectStarts(tokens);
    while i < n
      invariant CollectInv(tokens, i, out)
      decreases n - i
    {
      out := RecordPass(tokens, i, out);
      i := i + 1;
    }
  }

  /**
    One pass of the first loop of `collect_declared_identifiers`: the name
    after a declaration keyword, if there is one, is appended under the
    keyword's key.
  */
  method RecordPass(tokens: seq<Token>, i: nat, out: map<string, seq<string>>) returns (out': map<string, seq<string>>)
    requires CollectInv(tokens, i, out) && i < |tokens|
    ensures CollectInv(tokens, i + 1, out')
  {
    CollectStep(tokens, i, out);
    out' := out;
    var t := tokens[i];
    if t.typ == "keyword" {
      var kw := t.val;
      if kw in {"qreg", "creg", "qubit", "bit"} {
        var name := NextId(tokens, i);
        if name.Some? && name.value != [] {
          out' := out[kw := out[kw] + [name.value]];
        }
      } else if kw in {"gate", "opaque"} {
        var name := NextId(tokens, i);
        if name.Some? && name.value != [] {
          out' := out["gate" := out["gate"] + [name.value]];
        }
      }
    }
  }

  /** The second pass of `collect_declared_identifiers`: each key's list de-duplicated in place. */
  method DedupEachKey(before: map<string, seq<string>>) returns (out: map<string, seq<string>>)
    requires HasDeclKeys(before)
    ensures HasDeclKeys(out)
    ensures forall key :: key in DeclKinds ==> out[key] == Dedup(before[key])
  {
    out := before;
    for k := 0 to |DeclKinds|
      invariant DedupInv(before, k, out)
    {
      var key := DeclKinds[k];
      var dedup := DedupKeepOrder(out[key]);
      DedupStep(before, k, out, dedup);
      out := out[key := dedup];
    }
    DedupEnds(before, out);
  }
}
