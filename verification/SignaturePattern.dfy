/** The textual signatures of the scanner and their compilation. */
module SignaturePattern {
  import opened Common

  datatype PatternByte = PatternByte(value: Byte, wildcard: bool)

  datatype Compiled = Ok(bytes: seq<PatternByte>) | InvalidToken(token: string) | EmptyPattern

  const WILDCARD := PatternByte(0, true)

  // ---------------------------------------------------------------- what compilation means

  /** `isspace` of the C locale. */
  predicate IsSpace(c: char) { c == ' ' || '\t' <= c <= '\r' }

  function Nibble(c: char): Option<nat> {
    if '0' <= c <= '9' then Some(c as int - '0' as int)
    else if 'a' <= c <= 'f' then Some(10 + c as int - 'a' as int)
    else if 'A' <= c <= 'F' then Some(10 + c as int - 'A' as int)
    else None
  }

  /** The sixteen digits in either case have their values, and nothing else is a digit. */
  lemma NibbleExactly(c: char, n: nat)
    ensures Nibble(c) == Some(n) <==> n < 16 && (c == "0123456789abcdef"[n] || c == "0123456789ABCDEF"[n])
  {
    if n < 16 {
      var digits := "0123456789abcdef";
      assert digits[n] == if n < 10 then '0' + n as char else 'a' + (n - 10) as char;
      assert "0123456789ABCDEF"[n] == if n < 10 then '0' + n as char else 'A' + (n - 10) as char;
    }
  }

  /** The six blanks of the C locale. */
  lemma BlanksExactly(c: char)
    ensures IsSpace(c) <==> c in [' ', '\t', '\n', '\U{B}', '\U{C}', '\r']
  {
  }

  /** `token` stands for `b`: one or two question marks, or two hexadecimal digits of any case. */
  predicate Spells(token: string, b: PatternByte) {
    || ((token == "?" || token == "??") && b == WILDCARD)
    || (|token| == 2 && !b.wildcard && Nibble(token[0]) == Some(b.value / 16) && Nibble(token[1]) == Some(b.value % 16))
  }

  /** The length of the run of characters at the front of `text` that are all blank or all not. */
  function RunLength(text: string, blank: bool): (n: nat)
    ensures n <= |text|
    ensures forall i | 0 <= i < n :: IsSpace(text[i]) == blank
    ensures n < |text| ==> IsSpace(text[n]) != blank
  {
    if text == [] || IsSpace(text[0]) != blank then 0 else 1 + RunLength(text[1..], blank)
  }

  /** The maximal runs of non-blank characters, in order. */
  function Tokens(text: string): seq<string>
    decreases |text|
  {
    var skip := RunLength(text, true);
    if skip == |text| then []
    else
      var n := RunLength(text[skip..], false);
      [text[skip..][..n]] + Tokens(text[skip..][n..])
  }

  predicate Blank(s: string) { forall i | 0 <= i < |s| :: IsSpace(s[i]) }

  predicate Solid(s: string) { |s| > 0 && forall i | 0 <= i < |s| :: !IsSpace(s[i]) }

  /** Tokens with a gap before each and one after the last. */
  function Join(gaps: seq<string>, tokens: seq<string>): string
    requires |gaps| == |tokens| + 1
  {
    if tokens == [] then gaps[0] else gaps[0] + (tokens[0] + Join(gaps[1..], tokens[1..]))
  }

  /** Gaps are blank, tokens are not, and only the first and the last gap may be empty. */
  ghost predicate Separates(gaps: seq<string>, tokens: seq<string>) {
    && |gaps| == |tokens| + 1
    && (forall i | 0 <= i < |gaps| :: Blank(gaps[i]))
    && (forall i | 0 <= i < |tokens| :: Solid(tokens[i]))
    && (forall i | 0 < i < |tokens| :: gaps[i] != "")
  }

  ghost predicate WrittenAs(text: string, tokens: seq<string>) {
    exists gaps :: Separates(gaps, tokens) && text == Join(gaps, tokens)
  }

  /** The byte a token stands for. */
  function TokenByte(token: string): (r: Option<PatternByte>)
    ensures forall b :: r == Some(b) <==> Spells(token, b)
  {
    if token == "?" || token == "??" then Some(WILDCARD)
    else if |token| != 2 || Nibble(token[0]).None? || Nibble(token[1]).None? then None
    else Some(PatternByte(Nibble(token[0]).value * 16 + Nibble(token[1]).value, false))
  }

  /** Compiling the rest of the tokens after `bytes` have been compiled. */
  function Finish(bytes: seq<PatternByte>, tokens: seq<string>): Compiled
    decreases |tokens|
  {
    if tokens == [] then if bytes == [] then EmptyPattern else Ok(bytes)
    else if TokenByte(tokens[0]).None? then InvalidToken(tokens[0])
    else Finish(bytes + [TokenByte(tokens[0]).value], tokens[1..])
  }

  function Compile(text: string): Compiled { Finish([], Tokens(text)) }

  // ---------------------------------------------------------------- tokens

  lemma {:induction false} RunLengthOf(front: string, rest: string, blank: bool)
    requires forall i | 0 <= i < |front| :: IsSpace(front[i]) == blank
    requires rest == [] || IsSpace(rest[0]) != blank
    ensures RunLength(front + rest, blank) == |front|
  {
    if front == [] {
      assert front + rest == rest;
    } else {
      assert (front + rest)[1..] == front[1..] + rest;
      RunLengthOf(front[1..], rest, blank);
    }
  }

  lemma RunLengthIs(text: string, blank: bool, n: nat)
    requires n <= |text| && forall i | 0 <= i < n :: IsSpace(text[i]) == blank
    requires n < |text| ==> IsSpace(text[n]) != blank
    ensures RunLength(text, blank) == n
  {
    RunLengthOf(text[..n], text[n..], blank);
    assert text[..n] + text[n..] == text;
  }

  lemma NoMoreTokens(text: string)
    requires Blank(text)
    ensures Tokens(text) == []
  {
    RunLengthIs(text, true, |text|);
  }

  lemma NextToken(text: string, skip: nat, n: nat)
    requires n > 0 && skip + n <= |text|
    requires forall i | 0 <= i < skip :: IsSpace(text[i])
    requires forall i | skip <= i < skip + n :: !IsSpace(text[i])
    requires skip + n < |text| ==> IsSpace(text[skip + n])
    ensures Tokens(text) == [text[skip..skip + n]] + Tokens(text[skip + n..])
  {
    RunLengthIs(text, true, skip);
    RunLengthIs(text[skip..], false, n);
    assert text[skip..][..n] == text[skip..skip + n] && text[skip..][n..] == text[skip + n..];
  }

  lemma JoinStart(gaps: seq<string>, tokens: seq<string>)
    requires Separates(gaps, tokens) && gaps[0] != ""
    ensures Join(gaps, tokens) != [] && IsSpace(Join(gaps, tokens)[0])
  {
    assert Blank(gaps[0]);
  }

  /** Joined tokens are found again, whatever the gaps. */
  lemma {:induction false} TokensOfJoin(gaps: seq<string>, tokens: seq<string>)
    requires Separates(gaps, tokens)
    ensures Tokens(Join(gaps, tokens)) == tokens
    decreases |tokens|
  {
    hide Tokens, RunLength;
    var text, skip := Join(gaps, tokens), |gaps[0]|;
    assert Blank(gaps[0]);
    if tokens == [] {
      NoMoreTokens(text);
    } else {
      var n, rest := |tokens[0]|, Join(gaps[1..], tokens[1..]);
      assert Solid(tokens[0]);
      assert Separates(gaps[1..], tokens[1..]);
      if |tokens| > 1 {
        JoinStart(gaps[1..], tokens[1..]);
      } else {
        assert Blank(gaps[1]);
      }
      assert text[skip..skip + n] == tokens[0] && text[skip + n..] == rest;
      NextToken(text, skip, n);
      TokensOfJoin(gaps[1..], tokens[1..]);
      assert tokens == [tokens[0]] + tokens[1..];
    }
  }

  lemma JoinNext(gap: string, token: string, gaps: seq<string>, tokens: seq<string>)
    requires Blank(gap) && Solid(token) && Separates(gaps, tokens)
    requires tokens != [] ==> gaps[0] != ""
    ensures Separates([gap] + gaps, [token] + tokens)
    ensures Join([gap] + gaps, [token] + tokens) == gap + (token + Join(gaps, tokens))
  {
    assert ([gap] + gaps)[1..] == gaps && ([token] + tokens)[1..] == tokens;
  }

  /** Every text is its tokens joined by gaps. */
  lemma {:induction false} GapsOf(text: string) returns (gaps: seq<string>)
    ensures Separates(gaps, Tokens(text)) && text == Join(gaps, Tokens(text))
    ensures text != "" && IsSpace(text[0]) ==> gaps[0] != ""
    decreases |text|
  {
    hide Tokens, RunLength;
    var skip := RunLength(text, true);
    if skip == |text| {
      NoMoreTokens(text);
      gaps := [text];
    } else {
      var n := RunLength(text[skip..], false);
      assert forall i | skip <= i < skip + n :: text[i] == text[skip..][i - skip];
      NextToken(text, skip, n);
      var gap, token, rest := text[..skip], text[skip..skip + n], text[skip + n..];
      var more := GapsOf(rest);
      if rest == "" { NoMoreTokens(rest); }
      JoinNext(gap, token, more, Tokens(rest));
      gaps := [gap] + more;
      assert text == gap + (token + rest);
    }
  }

  /** The tokens of a text are the only way to read it as tokens with gaps between them. */
  lemma TokensExactly(text: string, tokens: seq<string>)
    ensures Tokens(text) == tokens <==> WrittenAs(text, tokens)
  {
    if WrittenAs(text, tokens) {
      var gaps :| Separates(gaps, tokens) && text == Join(gaps, tokens);
      TokensOfJoin(gaps, tokens);
    }
    if Tokens(text) == tokens {
      var gaps := GapsOf(text);
    }
  }

  // ---------------------------------------------------------------- compilation

  lemma {:induction false} FinishOk(bytes: seq<PatternByte>, tokens: seq<string>, all: seq<PatternByte>)
    ensures Finish(bytes, tokens) == Ok(all) <==>
            && all != [] && |all| == |bytes| + |tokens| && all[..|bytes|] == bytes
            && forall i | 0 <= i < |tokens| :: Spells(tokens[i], all[|bytes| + i])
    decreases |tokens|
  {
    if tokens == [] {
      assert |all| == |bytes| && all[..|bytes|] == bytes ==> all == bytes;
    } else if TokenByte(tokens[0]).Some? {
      var b := TokenByte(tokens[0]).value;
      FinishOk(bytes + [b], tokens[1..], all);
      if Finish(bytes, tokens) == Ok(all) {
        assert all[|bytes|] == all[..|bytes| + 1][|bytes|] == b;
        forall i | 0 <= i < |tokens| ensures Spells(tokens[i], all[|bytes| + i]) {
          if i > 0 { assert tokens[i] == tokens[1..][i - 1]; }
        }
        assert all[..|bytes|] == all[..|bytes| + 1][..|bytes|];
      }
      if |all| == |bytes| + |tokens| && all[..|bytes|] == bytes &&
         forall i | 0 <= i < |tokens| :: Spells(tokens[i], all[|bytes| + i]) {
        assert Spells(tokens[0], all[|bytes| + 0]);
        assert all[..|bytes| + 1] == bytes + [b];
        forall i | 0 <= i < |tokens[1..]| ensures Spells(tokens[1..][i], all[|bytes + [b]| + i]) {
          assert Spells(tokens[i + 1], all[|bytes| + (i + 1)]);
        }
      }
    }
  }

  /** Compilation gives `bytes` exactly for the texts that write them out: hexadecimal digits of
      either case, one or two question marks, any blanks; so printing and compiling is the identity. */
  lemma CompilesExactly(text: string, bytes: seq<PatternByte>)
    ensures Compile(text) == Ok(bytes) <==>
            bytes != [] && exists tokens :: WrittenAs(text, tokens) && |tokens| == |bytes| &&
                                            forall i | 0 <= i < |tokens| :: Spells(tokens[i], bytes[i])
  {
    FinishOk([], Tokens(text), bytes);
    TokensExactly(text, Tokens(text));
    forall tokens | WrittenAs(text, tokens) ensures tokens == Tokens(text) {
      TokensExactly(text, tokens);
    }
  }

  lemma {:induction false} FinishFails(bytes: seq<PatternByte>, tokens: seq<string>, token: string)
    ensures Finish(bytes, tokens) == InvalidToken(token) <==>
            exists k: nat :: k < |tokens| && tokens[k] == token && TokenByte(token).None? &&
                             forall i | 0 <= i < k :: TokenByte(tokens[i]).Some?
    ensures Finish(bytes, tokens) == EmptyPattern <==> bytes == [] && tokens == []
    decreases |tokens|
  {
    if tokens != [] && TokenByte(tokens[0]).Some? {
      var next := bytes + [TokenByte(tokens[0]).value];
      FinishFails(next, tokens[1..], token);
      if Finish(bytes, tokens) == InvalidToken(token) {
        var k: nat :| k < |tokens[1..]| && tokens[1..][k] == token && TokenByte(token).None? &&
                      forall i | 0 <= i < k :: TokenByte(tokens[1..][i]).Some?;
        forall i | 0 <= i < k + 1 ensures TokenByte(tokens[i]).Some? {
          if i > 0 { assert TokenByte(tokens[1..][i - 1]).Some?; }
        }
        assert tokens[k + 1] == token;
      }
      if k: nat :| k < |tokens| && tokens[k] == token && TokenByte(token).None? &&
                   forall i | 0 <= i < k :: TokenByte(tokens[i]).Some? {
        assert tokens[1..][k - 1] == token;
      }
    }
  }

  /** Compilation fails exactly when there is no token, or for the first token that spells no byte. */
  lemma FailsExactly(text: string, token: string)
    ensures Compile(text).EmptyPattern? <==> WrittenAs(text, [])
    ensures Compile(text) == InvalidToken(token) <==>
            exists k: nat :: k < |Tokens(text)| && Tokens(text)[k] == token && (forall b :: !Spells(token, b)) &&
                             forall i | 0 <= i < k :: TokenByte(Tokens(text)[i]).Some?
  {
    FinishFails([], Tokens(text), token);
    TokensExactly(text, []);
    assert TokenByte(token).None? <==> forall b :: !Spells(token, b);
  }

  // ---------------------------------------------------------------- the lexer

  lemma FinishNext(bytes: seq<PatternByte>, token: string, tokens: seq<string>)
    ensures Finish(bytes, [token] + tokens) ==
            if TokenByte(token).None? then InvalidToken(token) else Finish(bytes + [TokenByte(token).value], tokens)
  {
    assert ([token] + tokens)[1..] == tokens;
  }

  lemma FinishEmpty(bytes: seq<PatternByte>)
    ensures Finish(bytes, []) == if bytes == [] then EmptyPattern else Ok(bytes)
  {
  }

  method ParseHexByte(token: string) returns (r: Option<Byte>)
    ensures r.Some? <==> exists b :: Spells(token, b) && !b.wildcard
    ensures r.Some? ==> Spells(token, PatternByte(r.value, false))
  {
    if |token| != 2 || Nibble(token[0]).None? || Nibble(token[1]).None? {
      return None;
    }
    r := Some(Nibble(token[0]).value * 16 + Nibble(token[1]).value);
    assert Spells(token, PatternByte(r.value, false));
  }

  /** The two tests of the loop body find the byte of a token. */
  method ReadToken(token: string) returns (r: Option<PatternByte>)
    ensures r == TokenByte(token)
  {
    if token == "?" || token == "??" {
      return Some(PatternByte(0, true));
    }
    var byte := ParseHexByte(token);
    if byte.None? {
      return None;
    }
    return Some(PatternByte(byte.value, false));
  }

  /** The same inside a pattern: blanks from `from` to `start`, then a maximal run up to `pos`. */
  lemma TokenAt(bytes: seq<PatternByte>, pattern: string, from: nat, start: nat, pos: nat)
    requires from <= start < pos <= |pattern|
    requires forall i | from <= i < start :: IsSpace(pattern[i])
    requires forall i | start <= i < pos :: !IsSpace(pattern[i])
    requires pos < |pattern| ==> IsSpace(pattern[pos])
    ensures var token := pattern[start..pos];
            Finish(bytes, Tokens(pattern[from..])) ==
            if TokenByte(token).None? then InvalidToken(token)
            else Finish(bytes + [TokenByte(token).value], Tokens(pattern[pos..]))
  {
    hide Tokens, Finish, TokenByte, RunLength, IsSpace;
    var rest := pattern[from..];
    NextToken(rest, start - from, pos - start);
    assert rest[start - from..pos - from] == pattern[start..pos] && rest[pos - from..] == pattern[pos..];
    FinishNext(bytes, pattern[start..pos], Tokens(pattern[pos..]));
  }

  lemma BlanksTo(bytes: seq<PatternByte>, pattern: string, from: nat)
    requires from <= |pattern| && forall i | from <= i < |pattern| :: IsSpace(pattern[i])
    ensures Finish(bytes, Tokens(pattern[from..])) == if bytes == [] then EmptyPattern else Ok(bytes)
  {
    hide Tokens, Finish, TokenByte, RunLength;
    NoMoreTokens(pattern[from..]);
    FinishEmpty(bytes);
  }

  /** `compile_pattern` */
  method CompilePattern(pattern: string) returns (r: Compiled)
    ensures r == Compile(pattern)
  {
    hide Tokens, Finish, TokenByte, RunLength, IsSpace;
    var bytes: seq<PatternByte> := [];
    var pos := 0;
    ghost var from := 0;
    assert pattern[0..] == pattern;
    while pos < |pattern|
      invariant from == pos <= |pattern|
      invariant Finish(bytes, Tokens(pattern[from..])) == Compile(pattern)
    {
      while pos < |pattern| && IsSpace(pattern[pos])
        invariant from <= pos <= |pattern| && forall i | from <= i < pos :: IsSpace(pattern[i])
      {
        pos := pos + 1;
      }
      if pos >= |pattern| {
        break;
      }
      var start := pos;
      while pos < |pattern| && !IsSpace(pattern[pos])
        invariant start <= pos <= |pattern| && forall i | start <= i < pos :: !IsSpace(pattern[i])
        invariant pos == start ==> !IsSpace(pattern[start])
      {
        pos := pos + 1;
      }
      var token := pattern[start..pos];
      TokenAt(bytes, pattern, from, start, pos);
      var byte := ReadToken(token);
      if byte.None? {
        return InvalidToken(token);
      }
      bytes, from := bytes + [byte.value], pos;
    }
    BlanksTo(bytes, pattern, from);
    if bytes == [] {
      return EmptyPattern;
    }
    return Ok(bytes);
  }
}
