/**
  Properties of the lexer functions of `QasmLexerSpec`: how the two comment
  passes cut the text, which group of the token pattern wins, that a scan
  gives back the text it consumed, what the yielded tokens look like, the
  exception `tokenize` raises as written and as meant, and what
  `collect_declared_identifiers` keeps.
*/
module QasmLexerProofs {
  import opened Wrappers
  import opened Text
  import opened QasmLexerSpec

  // ---------------------------------------------------------------------
  // Two-character markers
  // ---------------------------------------------------------------------

  /** The marker `a b` (two characters in turn) starts nowhere in `s`. */
  predicate NoPair(s: string, a: char, b: char) {
    forall j :: 0 <= j < |s| - 1 ==> !(s[j] == a && s[j + 1] == b)
  }

  /** A two-character pattern occurs where its two characters stand in turn. */
  lemma OccursPair(s: string, pat: string, j: nat)
    requires |pat| == 2
    ensures OccursAt(s, pat, j) <==> j + 1 < |s| && s[j] == pat[0] && s[j + 1] == pat[1]
  {
    if j + 1 < |s| {
      assert s[j..j + 2][0] == s[j] && s[j..j + 2][1] == s[j + 1];
      if s[j] == pat[0] && s[j + 1] == pat[1] {
        assert s[j..j + 2] == pat;
      }
    }
  }

  /** `IndexOfSub` finds the first occurrence at or after `k`. */
  lemma IndexOfSubFirst(s: string, pat: string, k: nat, m: nat)
    requires k <= m <= |s|
    requires forall j :: k <= j < m ==> !OccursAt(s, pat, j)
    requires m < |s| ==> OccursAt(s, pat, m)
    ensures IndexOfSub(s, pat, k) == m
  {
    IndexOfSubSpec(s, pat, k);
  }

  /** Looking from one character on is looking in the text without its first character. */
  lemma {:induction false} IndexOfSubTail(s: string, pat: string, k: nat)
    requires s != [] && k < |s|
    ensures IndexOfSub(s, pat, k + 1) == 1 + IndexOfSub(s[1..], pat, k)
    decreases |s| - k
  {
    if k + 1 < |s| {
      if k + 1 + |pat| <= |s| {
        assert s[k + 1..k + 1 + |pat|] == s[1..][k..k + |pat|];
      }
      IndexOfSubTail(s, pat, k + 1);
    }
  }

  /** The text before the first `pat` of a text that does not start with it. */
  lemma BeforeFirstCons(s: string, pat: string)
    requires s != [] && !OccursAt(s, pat, 0)
    ensures BeforeFirst(s, pat) == [s[0]] + BeforeFirst(s[1..], pat)
  {
    IndexOfSubTail(s, pat, 0);
    var k := IndexOfSub(s[1..], pat, 0);
    assert s[..k + 1] == [s[0]] + s[1..][..k];
  }

  /** The first character satisfying `p` in `a + t`, when `a` holds none and `t` starts with one. */
  lemma {:induction false} FirstWhereExact(a: string, t: string, p: char -> bool)
    requires NoneOf(a, p) && (t == [] || p(t[0]))
    ensures FirstWhere(a + t, p) == |a|
  {
    if a == [] {
      assert a + t == t;
    } else {
      assert (a + t)[0] == a[0];
      assert (a + t)[1..] == a[1..] + t;
      FirstWhereExact(a[1..], t, p);
    }
  }

  // ---------------------------------------------------------------------
  // strip_comments: the line pass
  // ---------------------------------------------------------------------

  /** A text with no `//` passes the line pass unchanged. */
  lemma {:induction false} StripLineNoComment(s: string)
    requires NoPair(s, '/', '/')
    ensures StripLineComments(s) == s
    decreases |s|
  {
    if s != [] {
      StripLineNoComment(s[1..]);
    }
  }

  /**
    The line pass on a line followed by a line break: the line loses
    everything from its first `//` on, the break is kept, and the pass goes
    on with the next line.
  */
  lemma {:induction false} StripLineFirstLine(line: string, rest: string)
    requires NoneOf(line, IsNewline)
    ensures StripLineComments(line + "\n" + rest) == BeforeFirst(line, "//") + "\n" + StripLineComments(rest)
    decreases |line|
  {
    var s := line + "\n" + rest;
    if line == [] {
      assert s == "\n" + rest && s[1..] == rest;
    } else if |line| >= 2 && line[0] == '/' && line[1] == '/' {
      assert s[2..] == line[2..] + ("\n" + rest);
      FirstWhereExact(line[2..], "\n" + rest, IsNewline);
      assert s[|line|..] == "\n" + rest;
      assert ("\n" + rest)[1..] == rest;
      OccursPair(line, "//", 0);
    } else {
      OccursPair(line, "//", 0);
      BeforeFirstCons(line, "//");
      assert s[1..] == line[1..] + "\n" + rest;
      StripLineFirstLine(line[1..], rest);
    }
  }

  /** The line pass on the last line, which no line break ends. */
  lemma {:induction false} StripLineLastLine(line: string)
    requires NoneOf(line, IsNewline)
    ensures StripLineComments(line) == BeforeFirst(line, "//")
    decreases |line|
  {
    if line == [] {
    } else if |line| >= 2 && line[0] == '/' && line[1] == '/' {
      assert line[2..] == line[2..] + [];
      FirstWhereExact(line[2..], [], IsNewline);
      OccursPair(line, "//", 0);
    } else {
      OccursPair(line, "//", 0);
      BeforeFirstCons(line, "//");
      StripLineLastLine(line[1..]);
    }
  }

  /** The line pass keeps a first character that starts no comment. */
  lemma StripLineHead(t: string)
    requires t != [] && (|t| == 1 || t[0] != '/' || t[1] != '/')
    ensures StripLineComments(t) != [] && StripLineComments(t)[0] == t[0]
  {
  }

  /** After the line pass no `//` is left. */
  lemma {:induction false} StripLineLeavesNoComment(s: string)
    ensures NoPair(StripLineComments(s), '/', '/')
    decreases |s|
  {
    if s == [] {
    } else if |s| >= 2 && s[0] == '/' && s[1] == '/' {
      var e := 2 + FirstWhere(s[2..], IsNewline);
      StripLineLeavesNoComment(s[e..]);
    } else {
      StripLineLeavesNoComment(s[1..]);
      var r := StripLineComments(s[1..]);
      if s[0] == '/' && |s| >= 2 {
        StripLineHead(s[1..]);
      }
      assert forall j :: 1 <= j < |r| ==> ([s[0]] + r)[j] == r[j - 1];
    }
  }

  /** The line pass is idempotent. */
  lemma StripLineIdempotent(s: string)
    ensures StripLineComments(StripLineComments(s)) == StripLineComments(s)
  {
    StripLineLeavesNoComment(s);
    StripLineNoComment(StripLineComments(s));
  }

  // ---------------------------------------------------------------------
  // strip_comments: the block pass
  // ---------------------------------------------------------------------

  /** A text with no opening marker passes the block pass unchanged. */
  lemma {:induction false} StripBlockNoComment(s: string)
    requires NoPair(s, '/', '*')
    ensures StripBlockComments(s) == s
    decreases |s|
  {
    if s != [] {
      StripBlockNoComment(s[1..]);
    }
  }

  /** The first closing marker at or after `|p|` is the one right after `c` when `c` holds none. */
  lemma CloserAt(p: string, c: string, t: string)
    requires NoPair(c, '*', '/')
    ensures IndexOfSub(p + c + "*/" + t, "*/", |p|) == |p| + |c|
  {
    var s := p + c + "*/" + t;
    OccursPair(s, "*/", |p| + |c|);
    forall j | |p| <= j < |p| + |c|
      ensures !OccursAt(s, "*/", j)
    {
      OccursPair(s, "*/", j);
    }
    IndexOfSubFirst(s, "*/", |p|, |p| + |c|);
  }

  /**
    The block pass removes a closed comment: the text before the first
    opening marker is kept, everything up to the first closing marker after
    it goes, and the pass goes on after that.
  */
  lemma {:induction false} StripBlockRemoves(a: string, c: string, rest: string)
    requires NoPair(a, '/', '*') && NoPair(c, '*', '/')
    ensures StripBlockComments(a + "/*" + c + "*/" + rest) == a + StripBlockComments(rest)
    decreases |a|
  {
    var s := a + "/*" + c + "*/" + rest;
    if a == [] {
      assert s == "/*" + c + "*/" + rest;
      CloserAt("/*", c, rest);
      assert s[..2] == "/*";
      assert s[2 + |c| + 2..] == rest;
    } else {
      assert s[0] == a[0] && s[1] == (a[1..] + "/*")[0];
      assert s[1..] == a[1..] + "/*" + c + "*/" + rest;
      StripBlockRemoves(a[1..], c, rest);
    }
  }

  /** An opening marker that no closing marker follows stops the block pass: the rest is kept. */
  lemma {:induction false} StripBlockUnclosed(a: string, rest: string)
    requires NoPair(a, '/', '*') && NoPair(rest, '*', '/')
    ensures StripBlockComments(a + "/*" + rest) == a + "/*" + rest
    decreases |a|
  {
    var s := a + "/*" + rest;
    if a == [] {
      assert s == "/*" + rest;
      forall j | 2 <= j < |s|
        ensures !OccursAt(s, "*/", j)
      {
        OccursPair(s, "*/", j);
      }
      IndexOfSubFirst(s, "*/", 2, |s|);
    } else {
      assert s[0] == a[0] && s[1] == (a[1..] + "/*")[0];
      assert s[1..] == a[1..] + "/*" + rest;
      StripBlockUnclosed(a[1..], rest);
    }
  }

  /**
    `strip_comments` leaves no line comment marker behind, and a text with
    neither comment marker comes out as it went in.
  */
  lemma StripCommentsSpec(s: string)
    ensures NoPair(StripComments(s), '/', '/')
    ensures NoPair(s, '/', '*') && NoPair(s, '/', '/') ==> StripComments(s) == s
  {
    StripLineLeavesNoComment(StripBlockComments(s));
    if NoPair(s, '/', '*') && NoPair(s, '/', '/') {
      StripBlockNoComment(s);
      StripLineNoComment(s);
    }
  }

  // ---------------------------------------------------------------------
  // TOKEN_RE: which group wins
  // ---------------------------------------------------------------------

  /**
    The alternation's choice: `c` with length `n` wins exactly when its group
    matches `n > 0` characters and every group before it matches none.
  */
  lemma MatchAtIff(s: string, c: TokenClass, n: nat)
    ensures MatchAt(s) == Some((c, n)) <==>
            (n > 0 && ClassLen(c, s) == n && forall d: TokenClass :: d.Rank() < c.Rank() ==> ClassLen(d, s) == 0)
  {
    MatchAtCases(s);
  }

  /** No group matches exactly when no token starts here. */
  lemma MatchAtNoneIff(s: string)
    ensures MatchAt(s) == None <==> forall d: TokenClass :: ClassLen(d, s) == 0
  {
    MatchAtCases(s);
  }

  /** The alternation written out group by group, in the order of `TOKEN_RE`. */
  lemma MatchAtCases(s: string)
    ensures MatchAt(s) ==
            if ClassLen(Id, s) > 0 then Some((Id, ClassLen(Id, s)))
            else if ClassLen(Number, s) > 0 then Some((Number, ClassLen(Number, s)))
            else if ClassLen(Str, s) > 0 then Some((Str, ClassLen(Str, s)))
            else if ClassLen(Arrow, s) > 0 then Some((Arrow, ClassLen(Arrow, s)))
            else if ClassLen(Op, s) > 0 then Some((Op, ClassLen(Op, s)))
            else if ClassLen(Symbol, s) > 0 then Some((Symbol, ClassLen(Symbol, s)))
            else None
  {
    assert Classes[1..] == [Number, Str, Arrow, Op, Symbol];
    assert Classes[1..][1..] == [Str, Arrow, Op, Symbol];
    assert Classes[1..][1..][1..] == [Arrow, Op, Symbol];
    assert Classes[1..][1..][1..][1..] == [Op, Symbol];
    assert Classes[1..][1..][1..][1..][1..] == [Symbol];
    assert Classes[1..][1..][1..][1..][1..][1..] == [];
  }

  /** An identifier is read for as long as word characters follow. */
  lemma IdentifierIsMaximal(s: string)
    requires s != [] && IsIdStart(s[0])
    ensures MatchAt(s) == Some((Id, IdLen(s)))
    ensures IdLen(s) == |s| || !IsWordChar(s[IdLen(s)])
    ensures AllOf(s[1..IdLen(s)], IsWordChar)
  {
    MatchAtIff(s, Id, IdLen(s));
    RunLenSpec(s[1..], IsWordChar);
  }

  /** `->` is one arrow, not a minus and a greater-than. */
  lemma ArrowBeatsSymbol(s: string)
    requires StartsWith(s, "->")
    ensures MatchAt(s) == Some((Arrow, 2))
  {
    assert s[0] == '-' && s[1] == '>';
    MatchAtIff(s, Arrow, 2);
  }

  /** A two-character operator is one token, not two symbols. */
  lemma OperatorBeatsSymbol(s: string)
    requires |s| >= 2 && s[..2] in Operators
    ensures MatchAt(s) == Some((Op, 2))
  {
    assert s[0] == s[..2][0] && s[1] == s[..2][1];
    assert s[0] in {'=', '!', '<', '>', '+', '-', '*', '/', '&', '|', ':'};
    assert !StartsWith(s, "->");
    MatchAtIff(s, Op, 2);
  }

  /** A digit starts a number, never a symbol. */
  lemma DigitStartsNumber(s: string)
    requires s != [] && IsAsciiDigit(s[0])
    ensures MatchAt(s) == Some((Number, NumberLen(s)))
  {
    assert RunLen(s, IsAsciiDigit) > 0;
    MatchAtIff(s, Number, NumberLen(s));
  }

  // ---------------------------------------------------------------------
  // tokenize
  // ---------------------------------------------------------------------

  /**
    Every group name is a key of `TYPE_MAP`, so the `lower()` fallback is
    never taken; only an identifier in `KEYWORDS` becomes a keyword.
  */
  lemma TypeOfGroup(c: TokenClass, val: string)
    ensures c.Name() in TypeMap && TypeMap[c.Name()] == c.TypeName()
    ensures TypeOf(c, val) == if c == Id && val in Keywords then "keyword" else c.TypeName()
  {
  }

  /** The tokens of a list of pieces: a yielded piece's token, then those of the rest. */
  lemma TokensWithCons(typer: Typer, p: Piece, rest: seq<Piece>)
    ensures TokensWith(typer, [p] + rest)
            == (if p.Yield? then [Token(typer(p.group, p.val), p.val)] else []) + TokensWith(typer, rest)
  {
    assert ([p] + rest)[1..] == rest;
  }

  lemma TokensOfCons(p: Piece, rest: seq<Piece>)
    ensures TokensOf([p] + rest) == (if p.Yield? then [TokenOf(p)] else []) + TokensOf(rest)
  {
    TokensWithCons(TypeOf, p, rest);
  }

  /** Yielding one token more: the tokens of `pieces + [p]`. */
  lemma {:induction false} TokensWithSnoc(typer: Typer, pieces: seq<Piece>, p: Piece)
    ensures TokensWith(typer, pieces + [p])
            == TokensWith(typer, pieces) + (if p.Yield? then [Token(typer(p.group, p.val), p.val)] else [])
    decreases |pieces|
  {
    if pieces == [] {
      assert [] + [p] == [p] + [];
      TokensWithCons(typer, p, []);
    } else {
      assert pieces + [p] == [pieces[0]] + (pieces[1..] + [p]);
      TokensWithCons(typer, pieces[0], pieces[1..] + [p]);
      TokensWithSnoc(typer, pieces[1..], p);
      assert pieces == [pieces[0]] + pieces[1..];
      TokensWithCons(typer, pieces[0], pieces[1..]);
    }
  }

  lemma FlattenCons(p: Piece, rest: seq<Piece>)
    ensures Flatten([p] + rest) == PieceText(p) + Flatten(rest)
  {
    assert ([p] + rest)[1..] == rest;
  }

  /** Where a scan stops: at its error, or at the end `n` of the text. */
  function StopOf(r: Scan, n: nat): nat {
    if r.err.Some? then r.err.value.pos else n
  }

  /**
    A scan that stops with an error stops at a character of the text after
    `i` that is no blank and starts no token.
  */
  lemma {:induction false} ScanStopsAt(m: Matcher, src: string, i: nat)
    requires Consumes(m) && i <= |src|
    ensures ScanWith(m, src, i).err.Some? ==>
              var e := ScanWith(m, src, i).err.value;
              i <= e.pos < |src| && e.ch == src[e.pos] && !IsSpace(e.ch) && m(src[e.pos..]).None?
    decreases |src| - i
  {
    if i < |src| {
      var x := m(src[i..]);
      if x.Some? {
        ScanStopsAt(m, src, i + x.value.1);
      } else if IsSpace(src[i]) {
        ScanStopsAt(m, src, i + 1);
      }
    }
  }

  /** One step of the scan: the piece at `i` covers the next `n` characters. */
  lemma ScanStep(m: Matcher, src: string, i: nat, n: nat)
    requires Consumes(m) && i < |src|
    requires n == if m(src[i..]).Some? then m(src[i..]).value.1 else 1
    requires m(src[i..]).Some? || IsSpace(src[i])
    ensures i + n <= |src|
    ensures StopOf(ScanWith(m, src, i), |src|) == StopOf(ScanWith(m, src, i + n), |src|)
    ensures Flatten(ScanWith(m, src, i).pieces) == src[i..i + n] + Flatten(ScanWith(m, src, i + n).pieces)
  {
    var x := m(src[i..]);
    var rest := ScanWith(m, src, i + n);
    var p := if x.Some? then Yield(x.value.0, src[i..i + n]) else Skip(src[i]);
    assert ScanWith(m, src, i) == Scan([p] + rest.pieces, rest.err);
    assert Flatten([p] + rest.pieces) == src[i..i + n] + Flatten(rest.pieces) by {
      FlattenCons(p, rest.pieces);
      assert PieceText(p) == src[i..i + n];
    }
  }

  lemma SliceJoin(s: string, a: nat, b: nat, c: nat)
    requires a <= b <= c <= |s|
    ensures s[a..c] == s[a..b] + s[b..c]
  {
  }

  /**
    The scan from `i` gives back the text it consumed: its pieces together
    are `src[i..]`, or, when it stops with an error, the text up to the
    offending character.
  */
  ghost predicate Reassembles(m: Matcher, src: string, i: nat)
    requires Consumes(m) && i <= |src|
  {
    var r := ScanWith(m, src, i);
    i <= StopOf(r, |src|) <= |src| && Flatten(r.pieces) == src[i..StopOf(r, |src|)]
  }

  /** One piece more: if the scan after the piece at `i` reassembles, so does the scan from `i`. */
  lemma ScanReassemblesStep(m: Matcher, src: string, i: nat, n: nat)
    requires Consumes(m) && i < |src|
    requires n == if m(src[i..]).Some? then m(src[i..]).value.1 else 1
    requires m(src[i..]).Some? || IsSpace(src[i])
    requires i + n <= |src| && Reassembles(m, src, i + n)
    ensures Reassembles(m, src, i)
  {
    ScanStep(m, src, i, n);
    var e := StopOf(ScanWith(m, src, i + n), |src|);
    SliceJoin(src, i, i + n, e);
  }

  /** Every scan reassembles. */
  lemma {:induction false} ScanReassembles(m: Matcher, src: string, i: nat)
    requires Consumes(m) && i <= |src|
    ensures Reassembles(m, src, i)
    decreases |src| - i
  {
    if i < |src| {
      var x := m(src[i..]);
      if x.Some? || IsSpace(src[i]) {
        var n := if x.Some? then x.value.1 else 1;
        ScanReassembles(m, src, i + n);
        ScanReassemblesStep(m, src, i, n);
      }
    }
  }

  /**
    The state of the loop of `tokenize` at `i`: the pieces `done` so far
    start the scan, and `tokens` are the tokens among them.
  */
  ghost predicate TokenizeInv(m: Matcher, typer: Typer, src: string, i: nat, done: seq<Piece>, tokens: seq<Token>) {
    Consumes(m) && i <= |src| && ScannedUpTo(m, src, i, done) && tokens == TokensWith(typer, done)
  }

  /** Before the first pass nothing is scanned and nothing yielded. */
  lemma TokenizeStarts(m: Matcher, typer: Typer, src: string)
    requires Consumes(m)
    ensures TokenizeInv(m, typer, src, 0, [], [])
  {
    ScanStarts(m, src);
  }

  /** A match of `m` at `i` yields its token and moves past it. */
  lemma TokenizeMatched(m: Matcher, typer: Typer, src: string, i: nat, done: seq<Piece>, tokens: seq<Token>,
                        group: TokenClass, len: nat)
    requires TokenizeInv(m, typer, src, i, done, tokens) && i < |src| && m(src[i..]) == Some((group, len))
    ensures 0 < len && i + len <= |src|
    ensures TokenizeInv(m, typer, src, i + len, done + [Yield(group, src[i..i + len])],
                        tokens + [Token(typer(group, src[i..i + len]), src[i..i + len])])
  {
    ScanMatched(m, src, i, done, group, len);
    TokensWithSnoc(typer, done, Yield(group, src[i..i + len]));
  }

  /** A blank that starts no token is stepped over and yields nothing. */
  lemma TokenizeSkipped(m: Matcher, typer: Typer, src: string, i: nat, done: seq<Piece>, tokens: seq<Token>)
    requires TokenizeInv(m, typer, src, i, done, tokens) && i < |src| && m(src[i..]).None? && IsSpace(src[i])
    ensures TokenizeInv(m, typer, src, i + 1, done + [Skip(src[i])], tokens)
  {
    ScanSkipped(m, src, i, done);
    TokensWithSnoc(typer, done, Skip(src[i]));
  }

  /** Any other character ends the scan with an error at it, after the tokens yielded so far. */
  lemma TokenizeRefused(m: Matcher, typer: Typer, src: string, i: nat, done: seq<Piece>, tokens: seq<Token>)
    requires TokenizeInv(m, typer, src, i, done, tokens) && i < |src| && m(src[i..]).None? && !IsSpace(src[i])
    ensures tokens == TokensWith(typer, ScanWith(m, src, 0).pieces)
    ensures ScanWith(m, src, 0).err == Some(UnexpectedChar(src[i], i))
  {
    ScanRefused(m, src, i, done);
  }

  /** At the end of the text every token has been yielded and there is no error. */
  lemma TokenizeEnds(m: Matcher, typer: Typer, src: string, done: seq<Piece>, tokens: seq<Token>)
    requires TokenizeInv(m, typer, src, |src|, done, tokens)
    ensures ScanWith(m, src, 0) == Scan(done, None) && tokens == TokensWith(typer, done)
  {
    ScanEnds(m, src, done);
  }

  /**
    The values `tokenize` yields and the blanks it skips, in order, spell the
    text up to where it stopped: all of it when no character was refused.
  */
  lemma TokenizeReassembles(src: string)
    ensures StopOf(ScanFrom(src, 0), |src|) <= |src|
    ensures Flatten(ScanFrom(src, 0).pieces) == src[..StopOf(ScanFrom(src, 0), |src|)]
    ensures ScanFrom(src, 0).err.None? ==> Flatten(ScanFrom(src, 0).pieces) == src
  {
    MatchAtShape();
    ScanReassembles(MatchAt, src, 0);
  }

  /**
    The loop of `tokenize`, scanning with `m`, after it has produced the
    pieces `done` and reached `i`: the scan from the start is `done`
    followed by the scan from `i`, and ends the same way.
  */
  ghost predicate ScannedUpTo(m: Matcher, src: string, i: nat, done: seq<Piece>)
    requires Consumes(m) && i <= |src|
  {
    && ScanWith(m, src, 0).pieces == done + ScanWith(m, src, i).pieces
    && ScanWith(m, src, 0).err == ScanWith(m, src, i).err
  }

  /** At position 0 the scan so far is empty. */
  lemma ScanStarts(m: Matcher, src: string)
    requires Consumes(m)
    ensures ScannedUpTo(m, src, 0, [])
  {
  }

  /** A match gives its piece and moves to the end of the match. */
  lemma ScanMatched(m: Matcher, src: string, i: nat, done: seq<Piece>, group: TokenClass, len: nat)
    requires Consumes(m) && i < |src| && ScannedUpTo(m, src, i, done) && m(src[i..]) == Some((group, len))
    ensures i + len <= |src|
    ensures ScannedUpTo(m, src, i + len, done + [Yield(group, src[i..i + len])])
  {
    var rest := ScanWith(m, src, i + len);
    assert ScanWith(m, src, i).pieces == [Yield(group, src[i..i + len])] + rest.pieces;
    assert done + ([Yield(group, src[i..i + len])] + rest.pieces) == (done + [Yield(group, src[i..i + len])]) + rest.pieces;
  }

  /** A blank that starts no token is stepped over. */
  lemma ScanSkipped(m: Matcher, src: string, i: nat, done: seq<Piece>)
    requires Consumes(m) && i < |src| && ScannedUpTo(m, src, i, done) && m(src[i..]).None? && IsSpace(src[i])
    ensures ScannedUpTo(m, src, i + 1, done + [Skip(src[i])])
  {
    var rest := ScanWith(m, src, i + 1);
    assert done + ([Skip(src[i])] + rest.pieces) == (done + [Skip(src[i])]) + rest.pieces;
  }

  /** Any other character ends the scan with an error at it. */
  lemma ScanRefused(m: Matcher, src: string, i: nat, done: seq<Piece>)
    requires Consumes(m) && i < |src| && ScannedUpTo(m, src, i, done) && m(src[i..]).None? && !IsSpace(src[i])
    ensures ScanWith(m, src, 0) == Scan(done, Some(UnexpectedChar(src[i], i)))
  {
    assert done + [] == done;
  }

  /** At the end of the text the scan is complete and has no error. */
  lemma ScanEnds(m: Matcher, src: string, done: seq<Piece>)
    requires Consumes(m) && ScannedUpTo(m, src, |src|, done)
    ensures ScanWith(m, src, 0) == Scan(done, None)
  {
    assert done + [] == done;
  }

  /** What a group's match looks like: non-empty, and an identifier's all word characters after a letter or `_`. */
  predicate GroupShape(c: TokenClass, v: string) {
    v != [] && (c == Id ==> IsIdStart(v[0]) && AllOf(v[1..], IsWordChar))
  }

  /** Every match of `m` has its group's shape. */
  ghost predicate MatchesShape(m: Matcher) {
    forall s :: m(s).Some? && m(s).value.1 <= |s| ==> GroupShape(m(s).value.0, s[..m(s).value.1])
  }

  /** The matches of `TOKEN_RE` have their group's shape. */
  lemma MatchAtShape()
    ensures Consumes(MatchAt) && MatchesShape(MatchAt)
  {
    forall s | MatchAt(s).Some?
      ensures GroupShape(MatchAt(s).value.0, s[..MatchAt(s).value.1])
    {
      var (c, len) := MatchAt(s).value;
      if c == Id {
        MatchAtIff(s, c, len);
        assert s[..len][1..] == s[1..len];
        RunLenSpec(s[1..], IsWordChar);
      }
    }
  }

  /** A matched piece has its group's shape and a skipped character is a blank. */
  predicate PieceShaped(p: Piece) {
    (p.Yield? ==> GroupShape(p.group, p.val)) && (p.Skip? ==> IsSpace(p.blank))
  }

  /** Each matched piece of a scan has its group's shape and each skipped character is a blank. */
  lemma ScanPiecesShaped(m: Matcher, src: string, i: nat)
    requires Consumes(m) && MatchesShape(m) && i <= |src|
    ensures forall p :: p in ScanWith(m, src, i).pieces ==> PieceShaped(p)
  {
    ScanShapedFrom(m, src, i);
  }

  /** The scan from `i` consists of shaped pieces. */
  ghost predicate ShapedFrom(m: Matcher, src: string, i: nat)
    requires Consumes(m) && i <= |src|
  {
    forall p :: p in ScanWith(m, src, i).pieces ==> PieceShaped(p)
  }

  /** By induction on the pieces of the scan, one piece at a time. */
  lemma {:induction false} ScanShapedFrom(m: Matcher, src: string, i: nat)
    requires Consumes(m) && MatchesShape(m) && i <= |src|
    ensures ShapedFrom(m, src, i)
    decreases |src| - i
  {
    if i < |src| && (m(src[i..]).Some? || IsSpace(src[i])) {
      var n := if m(src[i..]).Some? then m(src[i..]).value.1 else 1;
      ScanShapedFrom(m, src, i + n);
      ScanPiecesShapedStep(m, src, i, n);
    }
  }

  /** One piece more: if the scan after the piece at `i` is shaped, so is the scan from `i`. */
  lemma ScanPiecesShapedStep(m: Matcher, src: string, i: nat, n: nat)
    requires Consumes(m) && MatchesShape(m) && i < |src|
    requires n == if m(src[i..]).Some? then m(src[i..]).value.1 else 1
    requires m(src[i..]).Some? || IsSpace(src[i])
    requires i + n <= |src| && ShapedFrom(m, src, i + n)
    ensures ShapedFrom(m, src, i)
  {
    var x := m(src[i..]);
    var rest := ScanWith(m, src, i + n);
    var p := if x.Some? then Yield(x.value.0, src[i..i + n]) else Skip(src[i]);
    assert ScanWith(m, src, i).pieces == [p] + rest.pieces;
    assert PieceShaped(p) by {
      if x.Some? {
        assert src[i..][..n] == src[i..i + n];
      }
    }
    PiecesShapedCons(p, rest.pieces);
  }

  /** A shaped piece in front of shaped pieces. */
  lemma PiecesShapedCons(p: Piece, rest: seq<Piece>)
    requires PieceShaped(p) && forall q :: q in rest ==> PieceShaped(q)
    ensures forall q :: q in [p] + rest ==> PieceShaped(q)
  {
  }

  /** A token as the generator yields it: a non-empty value, keywords tagged, identifiers no keyword. */
  predicate WellFormedToken(t: Token) {
    && t.val != []
    && (t.typ == "keyword" ==> t.val in Keywords && IsIdStart(t.val[0]) && AllOf(t.val[1..], IsWordChar))
    && (t.typ == "identifier" ==> t.val !in Keywords && IsIdStart(t.val[0]) && AllOf(t.val[1..], IsWordChar))
  }

  /** The token of a piece of the right shape is well formed. */
  lemma TokenOfWellFormed(p: Piece)
    requires p.Yield? && GroupShape(p.group, p.val)
    ensures WellFormedToken(TokenOf(p))
  {
    TypeOfGroup(p.group, p.val);
  }

  /** Every token the pieces stand for is well formed. */
  lemma {:induction false} TokensWellFormed(pieces: seq<Piece>)
    requires forall p :: p in pieces && p.Yield? ==> GroupShape(p.group, p.val)
    ensures forall t :: t in TokensOf(pieces) ==> WellFormedToken(t)
    decreases |pieces|
  {
    if pieces != [] {
      assert pieces == [pieces[0]] + pieces[1..];
      TokensOfCons(pieces[0], pieces[1..]);
      TokensWellFormed(pieces[1..]);
      if pieces[0].Yield? {
        TokenOfWellFormed(pieces[0]);
      }
    }
  }

  /** Every token `tokenize` yields is well formed. */
  lemma ScanTokensWellFormed(src: string)
    ensures forall t :: t in TokensOf(ScanFrom(src, 0).pieces) ==> WellFormedToken(t)
  {
    MatchAtShape();
    ScanPiecesShaped(MatchAt, src, 0);
    TokensWellFormed(ScanFrom(src, 0).pieces);
  }
  // ---------------------------------------------------------------------
  // The exception of tokenize
  // ---------------------------------------------------------------------

  /**
    Formatting succeeds exactly when every field has an argument; otherwise
    it fails at the first field numbered past the arguments.
  */
  lemma {:induction false} FormatIff(parts: seq<FormatPart>, args: seq<string>, k: nat)
    requires k <= |args|
    ensures Format(parts, args, k).Success? <==> k + FieldCount(parts) <= |args|
    ensures Format(parts, args, k).Failure? ==> Format(parts, args, k).error == |args|
    decreases |parts|
  {
    if parts != [] {
      match parts[0]
      case Literal(t) =>
        FormatIff(parts[1..], args, k);
      case Field(r) =>
        if k < |args| {
          FormatIff(parts[1..], args, k + 1);
        }
    }
  }

  lemma ErrorTemplateFields()
    ensures FieldCount(ErrorTemplate) == 4
  {
    var t := ErrorTemplate;
    assert t[1..][1..][1..][1..][1..][1..][1..][1..][1..] == [];
  }

  /**
    As written, `tokenize` never raises the `SyntaxError` it builds: its
    message has four fields and two arguments, so formatting raises
    `IndexError` for the third field.
  */
  lemma AsWrittenRaisesIndexError(src: string, e: LexError)
    requires e.pos <= |src|
    ensures RaisedAsWritten(src, e) == IndexError(2)
  {
    ErrorTemplateFields();
    FormatIff(ErrorTemplate, [[e.ch], Snippet(src, e.pos)], 0);
  }

  /** With one argument per field, the intended `SyntaxError` is raised. */
  lemma IntendedRaisesSyntaxError(src: string, e: LexError)
    requires e.pos <= |src|
    ensures RaisedIntended(src, e).SyntaxError?
  {
    ErrorTemplateFields();
    var args := [[e.ch], NatToString(LineOf(src, e.pos)), NatToString(ColumnAfter(src[..e.pos])), Snippet(src, e.pos)];
    FormatIff(ErrorTemplate, args, 0);
  }

  // ---------------------------------------------------------------------
  // collect_declared_identifiers
  // ---------------------------------------------------------------------

  predicate NoDup(s: seq<string>) {
    forall i, j :: 0 <= i < j < |s| ==> s[i] != s[j]
  }

  /** De-duplication keeps exactly the values of the input, each once. */
  lemma {:induction false} DedupSpec(vals: seq<string>)
    ensures NoDup(Dedup(vals))
    ensures forall x :: x in Dedup(vals) <==> x in vals
    decreases |vals|
  {
    if vals != [] {
      var init := vals[..|vals| - 1];
      DedupSpec(init);
      assert vals == init + [vals[|vals| - 1]];
    }
  }

  /** De-duplication keeps order: the result for a prefix is a prefix of the result. */
  lemma {:induction false} DedupKeepsOrder(vals: seq<string>, n: nat)
    requires n <= |vals|
    ensures Dedup(vals[..n]) <= Dedup(vals)
    decreases |vals| - n
  {
    if n < |vals| {
      DedupKeepsOrder(vals, n + 1);
      assert vals[..n + 1][..n] == vals[..n];
    } else {
      assert vals[..n] == vals;
    }
  }

  /** A list without repetitions is its own de-duplication; so de-duplicating twice changes nothing. */
  lemma {:induction false} DedupOfNoDup(vals: seq<string>)
    requires NoDup(vals)
    ensures Dedup(vals) == vals
    decreases |vals|
  {
    if vals != [] {
      var init := vals[..|vals| - 1];
      DedupOfNoDup(init);
      DedupSpec(init);
      assert vals == init + [vals[|vals| - 1]];
    }
  }

  lemma DedupIdempotent(vals: seq<string>)
    ensures Dedup(Dedup(vals)) == Dedup(vals)
  {
    DedupSpec(vals);
    DedupOfNoDup(Dedup(vals));
  }

  /** A name is recorded under `key` before `i` exactly when some earlier token records it there. */
  lemma {:induction false} RecordedUpToIff(tokens: seq<Token>, i: nat, key: string, x: string)
    requires i <= |tokens|
    ensures x in RecordedUpTo(tokens, i, key) <==> exists j :: 0 <= j < i && RecordAt(tokens, j) == Some((key, x))
    decreases i
  {
    if i > 0 {
      RecordedUpToIff(tokens, i - 1, key, x);
    }
  }

  /**
    `collect_declared_identifiers` lists under each of its five keys exactly
    the names some token records there, each once.
  */
  lemma CollectedIff(tokens: seq<Token>, key: string, x: string)
    requires key in DeclKinds
    ensures key in Collected(tokens) && NoDup(Collected(tokens)[key])
    ensures x in Collected(tokens)[key] <==> exists j :: 0 <= j < |tokens| && RecordAt(tokens, j) == Some((key, x))
  {
    DedupSpec(RecordedUpTo(tokens, |tokens|, key));
    RecordedUpToIff(tokens, |tokens|, key, x);
  }

  /**
    On the tokens of a scan, every collected name is an identifier and no
    keyword: a declaration such as `qreg qubit` records nothing.
  */
  lemma ScannedNamesAreIdentifiers(src: string, key: string, x: string)
    requires key in DeclKinds
    requires x in Collected(TokensOf(ScanFrom(src, 0).pieces))[key]
    ensures x != [] && x !in Keywords && IsIdStart(x[0]) && AllOf(x[1..], IsWordChar)
  {
    var tokens := TokensOf(ScanFrom(src, 0).pieces);
    CollectedIff(tokens, key, x);
    ScanTokensWellFormed(src);
    var j :| 0 <= j < |tokens| && RecordAt(tokens, j) == Some((key, x));
    assert tokens[j + 1] in tokens;
  }

  /**
    The state of the first loop of `collect_declared_identifiers` at `i`:
    the dict has its five keys, each listing the names recorded before `i`.
  */
  ghost predicate CollectInv(tokens: seq<Token>, i: nat, out: map<string, seq<string>>) {
    && i <= |tokens| && HasDeclKeys(out)
    && (forall key :: key in DeclKinds ==> out[key] == RecordedUpTo(tokens, i, key))
  }

  /** Before the first pass each of the five keys lists nothing. */
  lemma CollectStarts(tokens: seq<Token>)
    ensures CollectInv(tokens, 0, map["qreg" := [], "creg" := [], "qubit" := [], "bit" := [], "gate" := []])
  {
  }

  /** One pass of the first loop: the name the token records, if any, is appended under its key. */
  lemma CollectStep(tokens: seq<Token>, i: nat, out: map<string, seq<string>>)
    requires CollectInv(tokens, i, out) && i < |tokens|
    ensures RecordAt(tokens, i).None? ==> CollectInv(tokens, i + 1, out)
    ensures RecordAt(tokens, i).Some? ==>
              var (key, name) := RecordAt(tokens, i).value;
              key in out && CollectInv(tokens, i + 1, out[key := out[key] + [name]])
  {
  }

  /** A dict with exactly the five keys of `collect_declared_identifiers`. */
  ghost predicate HasDeclKeys(out: map<string, seq<string>>) {
    forall key :: key in out <==> key in DeclKinds
  }

  /**
    The state of the de-duplication pass over `before` after the first `k`
    keys: those are de-duplicated, the others are as they were.
  */
  ghost predicate DedupInv(before: map<string, seq<string>>, k: nat, out: map<string, seq<string>>) {
    && k <= |DeclKinds| && HasDeclKeys(before) && HasDeclKeys(out)
    && (forall j :: 0 <= j < |DeclKinds| ==>
          out[DeclKinds[j]] == if j < k then Dedup(before[DeclKinds[j]]) else before[DeclKinds[j]])
  }

  /** One pass of the de-duplication loop: the next key's list is replaced by its de-duplication. */
  lemma DedupStep(before: map<string, seq<string>>, k: nat, out: map<string, seq<string>>, d: seq<string>)
    requires DedupInv(before, k, out) && k < |DeclKinds| && d == Dedup(out[DeclKinds[k]])
    ensures DedupInv(before, k + 1, out[DeclKinds[k] := d])
  {
    forall j | 0 <= j < |DeclKinds| && j != k
      ensures DeclKinds[j] != DeclKinds[k]
    {
      DeclKindsDistinct(j, k);
    }
  }

  /** The five keys are pairwise different: no two share both their first letter and their length. */
  lemma DeclKindsDistinct(i: nat, j: nat)
    requires i < |DeclKinds| && j < |DeclKinds| && i != j
    ensures DeclKinds[i] != DeclKinds[j]
  {
    assert |DeclKinds[i]| != |DeclKinds[j]| || DeclKinds[i][0] != DeclKinds[j][0];
  }

  /** After the last key every list is de-duplicated. */
  lemma DedupEnds(before: map<string, seq<string>>, out: map<string, seq<string>>)
    requires DedupInv(before, |DeclKinds|, out)
    ensures forall key :: key in DeclKinds ==> out[key] == Dedup(before[key])
  {
    forall key | key in DeclKinds
      ensures out[key] == Dedup(before[key])
    {
      var j :| 0 <= j < |DeclKinds| && DeclKinds[j] == key;
    }
  }
}
