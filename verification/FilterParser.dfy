/**
 How the public API really reads a filter string, and exactly which printed filters it reads
 back as they were meant.

 Characters stand for the parser's bytes: every character it looks for is a single byte.
 */
module FilterParser {
  import opened Common
  import opened Filters

  datatype Error = EmptyFilters | NoDimension | NoValue | GoalOperator | UnknownDimension | NotAPredicate

  datatype Result<+T> = Ok(value: T) | Err(error: Error)

  datatype Filter =
    | Plain(dimension: string, op: Op, values: seq<string>)
    | Wildcard(dimension: string, negated: bool, values: seq<string>)
    | Goal(values: seq<string>)

  const GOAL := "event:goal"

  // ---- helpers of the parser ----

  predicate IsSpace(c: char) {
    || '\t' <= c <= '\r' || c == ' ' || c == '\U{85}' || c == '\U{A0}' || c == '\U{1680}'
    || '\U{2000}' <= c <= '\U{200A}' || c == '\U{2028}' || c == '\U{2029}' || c == '\U{202F}' || c == '\U{205F}'
    || c == '\U{3000}'
  }

  function TrimLeft(s: string): string { if s != "" && IsSpace(s[0]) then TrimLeft(s[1..]) else s }

  function TrimRight(s: string): string { if s != "" && IsSpace(s[|s| - 1]) then TrimRight(s[..|s| - 1]) else s }

  function TrimSpace(s: string): string { TrimRight(TrimLeft(s)) }

  /** The first unescaped occurrence of a token. */
  function CutToken(s: string, token: string): Option<(string, string)>
    requires token != ""
  {
    if |s| < |token| then None
    else if s[0] == '\\' then if |s| < 2 then None else After(s[..2], CutToken(s[2..], token))
    else if StartsWith(s, token) then Some(("", s[|token|..]))
    else After(s[..1], CutToken(s[1..], token))
  }

  function After(prefix: string, cut: Option<(string, string)>): Option<(string, string)> {
    if cut.None? then None else Some((prefix + cut.value.0, cut.value.1))
  }

  predicate AnyWildcard(values: seq<string>) { exists i :: 0 <= i < |values| && '*' in values[i] }

  // ---- the parser ----

  /** What a dimension, an operator and values are taken to mean. */
  function Meaning(dimension: string, op: Op, values: seq<string>, valid: string -> bool): Result<Filter> {
    if dimension == "" then Err(NoDimension)
    else if values == [] || values == [""] then Err(NoValue)
    else if dimension == GOAL then if op.Is? then Ok(Goal(values)) else Err(GoalOperator)
    else if !valid(dimension) then Err(UnknownDimension)
    else if (op.Is? || op.IsNot?) && AnyWildcard(values) then Ok(Wildcard(dimension, op.IsNot?, values))
    else Ok(Plain(dimension, op, values))
  }

  /** Tries the operators in turn, the ones that contain others first. */
  function ParseWith(clause: string, ops: seq<Op>, valid: string -> bool): Result<Filter> {
    if ops == [] then Err(NotAPredicate)
    else
      var cut := CutToken(clause, Token(ops[0]));
      if cut.None? then ParseWith(clause, ops[1..], valid)
      else Meaning(TrimSpace(cut.value.0), ops[0], UnescapeAll(Split(cut.value.1, '|')), valid)
  }

  function ParseFilter(clause: string, valid: string -> bool): Result<Filter> {
    ParseWith(clause, [IsNot, Is, ContainsNot, Contains], valid)
  }

  /** One clause after another, skipping blank ones. */
  function ParseEach(parts: seq<string>, valid: string -> bool): Result<seq<Filter>> {
    if parts == [] then Ok([])
    else if TrimSpace(parts[0]) == "" then ParseEach(parts[1..], valid)
    else
      var first := ParseFilter(TrimSpace(parts[0]), valid);
      if first.Err? then Err(first.error)
      else
        var rest := ParseEach(parts[1..], valid);
        if rest.Err? then rest else Ok([first.value] + rest.value)
  }

  function ParseFilters(raw: string, valid: string -> bool): Result<seq<Filter>> {
    var trimmed := TrimSpace(raw);
    if trimmed == "" then Ok([])
    else
      var filters := ParseEach(Split(trimmed, ';'), valid);
      if filters.Ok? && filters.value == [] then Err(EmptyFilters) else filters
  }

  // ---- trimming ----

  predicate EndsSolid(s: string) { s != "" && !IsSpace(s[|s| - 1]) }

  lemma {:induction false} TrimAfterSolid(head: string, s: string)
    requires EndsSolid(head)
    ensures TrimRight(head + s) == head + TrimRight(s)
  {
    if s == "" {
      assert head + s == head;
    } else if IsSpace(s[|s| - 1]) {
      TrimAfterSolid(head, s[..|s| - 1]);
      assert (head + s)[..|head + s| - 1] == head + s[..|s| - 1];
    }
  }

  /** White space is never escaped. */
  lemma {:induction false} TrimEscape(s: string)
    ensures TrimRight(Escape(s)) == Escape(TrimRight(s))
  {
    if s != "" {
      var front, last := s[..|s| - 1], s[|s| - 1..];
      assert s == front + last;
      EscapeAppend(front, last);
      assert Escape(last) == if Special(last[0]) then ['\\', last[0]] else last;
      var text := Escape(s);
      assert text[|text| - 1] == last[0];
      if IsSpace(last[0]) {
        TrimEscape(front);
        assert text[..|text| - 1] == Escape(front);
      }
    }
  }

  lemma {:induction false} TrimTwice(s: string)
    ensures TrimRight(TrimRight(s)) == TrimRight(s)
  {
    if s != "" && IsSpace(s[|s| - 1]) { TrimTwice(s[..|s| - 1]); }
  }

  /** The white space of Unicode. */
  lemma SpacesAre(c: char)
    ensures IsSpace(c) <==>
              c in {'\t', '\n', '\U{B}', '\U{C}', '\r', ' ', '\U{85}', '\U{A0}', '\U{1680}', '\U{2000}', '\U{2001}',
                    '\U{2002}', '\U{2003}', '\U{2004}', '\U{2005}', '\U{2006}', '\U{2007}', '\U{2008}', '\U{2009}',
                    '\U{200A}', '\U{2028}', '\U{2029}', '\U{202F}', '\U{205F}', '\U{3000}'}
  {}

  predicate Blank(s: string) { forall i :: 0 <= i < |s| ==> IsSpace(s[i]) }

  /** Trimming takes the white space off both ends, and only that. */
  lemma TrimMeans(s: string) returns (before: string, after: string)
    ensures s == before + TrimSpace(s) + after && Blank(before) && Blank(after)
    ensures var kept := TrimSpace(s); kept == "" || (!IsSpace(kept[0]) && !IsSpace(kept[|kept| - 1]))
    ensures TrimSpace(s) == "" <==> Blank(s)
  {
    hide IsSpace;
    before := TrimLeftMeans(s);
    after := TrimRightMeans(TrimLeft(s));
    assert s == before + (TrimSpace(s) + after);
    Associates(before, TrimSpace(s), after);
    assert TrimSpace(s) != "" ==> TrimSpace(s)[0] == s[|before|];
  }

  lemma {:induction false} TrimLeftMeans(s: string) returns (before: string)
    ensures s == before + TrimLeft(s) && Blank(before)
    ensures TrimLeft(s) != "" ==> !IsSpace(TrimLeft(s)[0])
  {
    before := "";
    if s != "" && IsSpace(s[0]) {
      var rest := TrimLeftMeans(s[1..]);
      before := [s[0]] + rest;
    }
  }

  lemma {:induction false} TrimRightMeans(s: string) returns (after: string)
    ensures s == TrimRight(s) + after && Blank(after)
    ensures TrimRight(s) != "" ==> TrimRight(s)[0] == s[0] && !IsSpace(TrimRight(s)[|TrimRight(s)| - 1])
  {
    after := "";
    if s != "" && IsSpace(s[|s| - 1]) {
      var rest := TrimRightMeans(s[..|s| - 1]);
      after := rest + [s[|s| - 1]];
    }
  }

  // ---- any text at all ----

  /** Every backslash escapes the character after it, so the scan stands at the end of this. */
  predicate Scanned(s: string) {
    s == "" || (if s[0] == '\\' then |s| > 1 && Scanned(s[2..]) else Scanned(s[1..]))
  }

  /** No place the scan comes to before the n-th character begins with the token. */
  predicate NoneBefore(s: string, token: string, n: int) {
    forall i :: 0 <= i < n && i <= |s| && Scanned(s[..i]) ==> !StartsWith(s[i..], token)
  }

  /** The text is cut at the first place the scan comes to that begins with the token, and is not
      cut if there is none. */
  lemma {:induction false} CutsAtTheFirst(s: string, token: string)
    requires token != "" && token[0] != '\\'
    ensures match CutToken(s, token)
            case None => NoneBefore(s, token, |s| + 1)
            case Some((before, after)) =>
              s == before + token + after && Scanned(before) && NoneBefore(s, token, |before|)
  {
    if |s| < |token| {
    } else if s[0] == '\\' && |s| < 2 {
      assert NoneBefore(s, token, |s| + 1);
    } else if StartsWith(s, token) {
      assert s == "" + token + s[|token|..];
    } else {
      var n := if s[0] == '\\' then 2 else 1;
      CutsAtTheFirst(s[n..], token);
      var cut := CutToken(s[n..], token);
      assert CutToken(s, token) == After(s[..n], cut);
      NoneAfterAStep(s, token, n, if cut.None? then |s| + 1 else |cut.value.0| + n);
      hide NoneBefore, CutToken, StartsWith;
      if cut.Some? { ScansFurther(s, n, cut.value.0, token, cut.value.1); }
    }
  }

  lemma ScansFurther(s: string, n: nat, before: string, token: string, after: string)
    requires s != "" && n == (if s[0] == '\\' then 2 else 1) <= |s|
    requires s[n..] == before + token + after && Scanned(before)
    ensures s == s[..n] + before + token + after && Scanned(s[..n] + before)
  {
    assert s == s[..n] + s[n..];
    assert (s[..n] + before)[n..] == before;
  }

  lemma NoneAfterAStep(s: string, token: string, n: nat, k: int)
    requires token != "" && s != "" && !StartsWith(s, token) && n <= |s|
    requires n == if s[0] == '\\' then 2 else 1
    requires NoneBefore(s[n..], token, k - n)
    ensures NoneBefore(s, token, k)
  {
    assert n == 2 ==> !Scanned(s[..1]);
    forall i | 0 <= i < k && i <= |s| && Scanned(s[..i])
      ensures !StartsWith(s[i..], token)
    {
      if i == 0 {
        assert s[0..] == s;
      } else if i >= n {
        assert s[..i][n..] == s[n..][..i - n] && s[n..][i - n..] == s[i..];
      }
    }
  }

  /** A blank text asks for nothing; one of which only blank clauses are left is refused. */
  lemma BlankFilters(raw: string, valid: string -> bool)
    ensures ParseFilters(raw, valid) == Ok([]) <==> Blank(raw)
    ensures ParseFilters(raw, valid) == Err(EmptyFilters) <==>
              !Blank(raw) && forall part :: part in Split(TrimSpace(raw), ';') ==> Blank(part)
  {
    var before, after := TrimMeans(raw);
    hide TrimSpace, ParseFilter, Blank, Split;
    if !Blank(raw) { ParsesToNothing(Split(TrimSpace(raw), ';'), valid); }
  }

  lemma {:induction false} ParsesToNothing(parts: seq<string>, valid: string -> bool)
    ensures ParseEach(parts, valid) == Ok([]) <==> forall part :: part in parts ==> Blank(part)
    ensures ParseEach(parts, valid) != Err(EmptyFilters)
  {
    if parts != [] {
      var before, after := TrimMeans(parts[0]);
      ParsesToNothing(parts[1..], valid);
      NeverEmpty(TrimSpace(parts[0]), valid);
      hide TrimSpace, ParseFilter, Blank;
      assert parts == [parts[0]] + parts[1..];
      assert forall part :: part in parts <==> part == parts[0] || part in parts[1..];
    }
  }

  lemma NeverEmpty(clause: string, valid: string -> bool)
    ensures ParseFilter(clause, valid) != Err(EmptyFilters)
  {
    NeverEmptyWith(clause, [IsNot, Is, ContainsNot, Contains], valid);
  }

  lemma {:induction false} NeverEmptyWith(clause: string, ops: seq<Op>, valid: string -> bool)
    ensures ParseWith(clause, ops, valid) != Err(EmptyFilters)
  {
    if ops != [] { NeverEmptyWith(clause, ops[1..], valid); }
  }

  // ---- printed clauses ----

  /** A dimension that trimming leaves alone. */
  predicate Readable(c: Clause) {
    WellFormed(c) && !IsSpace(c.dimension[0]) && EndsSolid(c.dimension)
  }

  /** The clause as it survives trimming: its last value loses the white space at its end. */
  function Trimmed(c: Clause): Clause {
    if c.values == [] then c else c.(values := c.values[|c.values| - 1 := TrimRight(c.values[|c.values| - 1])])
  }

  /** Everything before the last value. */
  function Head(c: Clause): string
    requires c.values != []
  {
    c.dimension + Token(c.op) + JoinFront(EscapeAll(c.values[..|c.values| - 1]))
  }

  function JoinFront(parts: seq<string>): string {
    if parts == [] then "" else parts[0] + ['|'] + JoinFront(parts[1..])
  }

  lemma JoinStep(values: seq<string>)
    requires |values| > 1
    ensures Join(EscapeAll(values), '|') == Escape(values[0]) + ['|'] + Join(EscapeAll(values[1..]), '|')
    ensures JoinFront(EscapeAll(values[..|values| - 1])) ==
              Escape(values[0]) + ['|'] + JoinFront(EscapeAll(values[1..][..|values| - 2]))
  {
    var front := values[..|values| - 1];
    assert values[1..][..|values| - 2] == front[1..];
    assert EscapeAll(values)[1..] == EscapeAll(values[1..]) != [];
    assert EscapeAll(front)[1..] == EscapeAll(front[1..]);
  }

  lemma {:induction false} JoinLast(values: seq<string>)
    requires values != []
    ensures Join(EscapeAll(values), '|') == JoinFront(EscapeAll(values[..|values| - 1])) + Escape(values[|values| - 1])
    ensures var front := JoinFront(EscapeAll(values[..|values| - 1])); front == "" || front[|front| - 1] == '|'
  {
    if |values| > 1 {
      hide Join, EscapeAll, Escape, JoinFront;
      JoinLast(values[1..]);
      JoinStep(values);
    }
  }

  lemma SyntaxIsSolid(op: Op)
    ensures EndsSolid(Token(op)) && !IsSpace('|')
  {}

  lemma HeadIsSolid(c: Clause)
    requires WellFormed(c)
    ensures EndsSolid(Head(c)) && Head(c)[0] == c.dimension[0]
  {
    SyntaxIsSolid(c.op);
    JoinLast(c.values);
    hide Escape, EscapeAll, Join, JoinFront, TrimRight, IsSpace;
    var start := c.dimension + Token(c.op);
    assert start[|start| - 1] == Token(c.op)[|Token(c.op)| - 1];
  }

  lemma ClauseLast(c: Clause)
    requires WellFormed(c)
    ensures PrintClause(c) == Head(c) + Escape(c.values[|c.values| - 1])
    ensures EndsSolid(Head(c)) && Head(Trimmed(c)) == Head(c)
    ensures PrintClause(c)[0] == c.dimension[0]
  {
    HeadIsSolid(c);
    JoinLast(c.values);
    hide Escape, EscapeAll, Join, JoinFront, TrimRight, IsSpace, EndsSolid;
    assert Trimmed(c).values[..|c.values| - 1] == c.values[..|c.values| - 1];
    Associates(c.dimension + Token(c.op), JoinFront(EscapeAll(c.values[..|c.values| - 1])),
        Escape(c.values[|c.values| - 1]));
  }

  lemma TrimClause(c: Clause, prefix: string)
    requires Readable(c)
    ensures TrimRight(prefix + PrintClause(c)) == prefix + PrintClause(Trimmed(c))
    ensures Trimmed(Trimmed(c)) == Trimmed(c) && Readable(Trimmed(c))
  {
    hide Escape, PrintClause, Head, TrimRight, IsSpace;
    var last := c.values[|c.values| - 1];
    ClauseLast(c);
    ClauseLast(Trimmed(c));
    TrimEscape(last);
    TrimTwice(last);
    var head := prefix + Head(c);
    assert head[|head| - 1] == Head(c)[|Head(c)| - 1];
    TrimAfterSolid(head, Escape(last));
    assert prefix + PrintClause(c) == head + Escape(last);
    assert prefix + PrintClause(Trimmed(c)) == head + Escape(TrimRight(last));
  }

  lemma TrimPrinted(c: Clause)
    requires Readable(c)
    ensures TrimSpace(PrintClause(c)) == PrintClause(Trimmed(c)) != ""
  {
    ClauseLast(c);
    ClauseLast(Trimmed(c));
    TrimClause(c, "");
    assert "" + PrintClause(c) == PrintClause(c);
    assert "" + PrintClause(Trimmed(c)) == PrintClause(Trimmed(c));
  }

  // ---- one clause, read back ----

  lemma {:induction false} NoCut(s: string, token: string)
    requires token != "" && Free(s, token[0])
    ensures CutToken(s, token) == None
  {
    if |s| >= |token| { NoCut(s[if s[0] == '\\' then 2 else 1..], token); }
  }

  lemma {:induction false} CutPlainPrefix(d: string, s: string, token: string)
    requires token != "" && Special(token[0]) && forall i :: 0 <= i < |d| ==> !Special(d[i])
    ensures CutToken(d + s, token) == After(d, CutToken(s, token))
  {
    if d == "" {
      assert d + s == s;
      var cut := CutToken(s, token);
      if cut.Some? { assert "" + cut.value.0 == cut.value.0; }
    } else if |d + s| >= |token| {
      CutPlainPrefix(d[1..], s, token);
      PlainStep(d + s, token);
      assert (d + s)[1..] == d[1..] + s;
      var cut := CutToken(s, token);
      if cut.Some? { assert (d + s)[..1] + (d[1..] + cut.value.0) == d + cut.value.0; }
    } else {
      TooShort(s, token);
    }
  }

  lemma PlainStep(s: string, token: string)
    requires token != "" && |s| >= |token| && Special(token[0]) && !Special(s[0])
    ensures CutToken(s, token) == After(s[..1], CutToken(s[1..], token))
  {
    assert s[..|token|][0] == s[0] != token[0];
  }

  lemma TooShort(s: string, token: string)
    requires |s| < |token|
    ensures CutToken(s, token) == None
  {}

  /** The operator is found where the dimension ends, and no other is found before it is tried. */
  lemma CutAt(op: Op, tried: Op, rest: string)
    requires Free(rest, '!') && Free(rest, '=')
    ensures CutToken(Token(op) + rest, Token(op)) == Some(("", rest))
    ensures tried.IsNot? && !op.IsNot? ==> CutToken(Token(op) + rest, Token(tried)) == None
    ensures tried.Is? && (op.Contains? || op.ContainsNot?) ==> CutToken(Token(op) + rest, Token(tried)) == None
    ensures tried.ContainsNot? && op.Contains? ==> CutToken(Token(op) + rest, Token(tried)) == None
  {
    var s := Token(op) + rest;
    assert s[..|Token(op)|] == Token(op) && s[|Token(op)|..] == rest;
    if op != tried && !op.IsNot? && !tried.Contains? && (tried.IsNot? || op.Contains? || op.ContainsNot?) {
      if op.ContainsNot? && !tried.Is? {
        PlainIsFree("~", '!');
        FreeAppend("~", rest, '!');
        NoCut("~" + rest, Token(tried));
        assert s[1..] == "~" + rest;
        assert |Token(tried)| == |Token(op)| && s[..|Token(tried)|] == Token(op);
      } else {
        PlainIsFree(Token(op), Token(tried)[0]);
        FreeAppend(Token(op), rest, Token(tried)[0]);
        NoCut(s, Token(tried));
      }
    }
  }

  lemma CutClause(c: Clause, tried: Op)
    requires WellFormed(c)
    ensures var rest := Join(EscapeAll(c.values), '|');
            && CutToken(PrintClause(c), Token(c.op)) == Some((c.dimension, rest))
            && (tried.IsNot? && !c.op.IsNot? ==> CutToken(PrintClause(c), Token(tried)) == None)
            && (tried.Is? && (c.op.Contains? || c.op.ContainsNot?) ==> CutToken(PrintClause(c), Token(tried)) == None)
            && (tried.ContainsNot? && c.op.Contains? ==> CutToken(PrintClause(c), Token(tried)) == None)
  {
    hide Escape, EscapeAll, Join, CutToken;
    var rest := Join(EscapeAll(c.values), '|');
    ValuesAreFree(c.values, '!');
    ValuesAreFree(c.values, '=');
    CutAt(c.op, tried, rest);
    CutPlainPrefix(c.dimension, Token(c.op) + rest, Token(c.op));
    CutPlainPrefix(c.dimension, Token(c.op) + rest, Token(tried));
    assert PrintClause(c) == c.dimension + (Token(c.op) + rest);
    assert c.dimension + "" == c.dimension;
  }

  lemma TrimDimension(c: Clause)
    requires Readable(c)
    ensures TrimSpace(c.dimension) == c.dimension
  {}

  lemma ParsePrinted(c: Clause, valid: string -> bool)
    requires Readable(c)
    ensures ParseFilter(PrintClause(c), valid) == Meaning(c.dimension, c.op, c.values, valid)
  {
    var text := PrintClause(c);
    CutClause(c, IsNot);
    CutClause(c, Is);
    CutClause(c, ContainsNot);
    TrimDimension(c);
    EscapedValues(c.values, '|');
    SplitJoin(EscapeAll(c.values), '|');
    hide CutToken, PrintClause, Join, EscapeAll, Escape, Meaning, TrimSpace, Split, UnescapeAll;
    assert [IsNot, Is, ContainsNot, Contains][1..] == [Is, ContainsNot, Contains];
    assert [Is, ContainsNot, Contains][1..] == [ContainsNot, Contains];
    assert [ContainsNot, Contains][1..] == [Contains];
    Tried(text, IsNot, [Is, ContainsNot, Contains], valid);
    Tried(text, Is, [ContainsNot, Contains], valid);
    Tried(text, ContainsNot, [Contains], valid);
    Tried(text, Contains, [], valid);
  }

  lemma MeaningOf(c: Clause, valid: string -> bool)
    requires WellFormed(c)
    ensures var starred := exists v :: v in c.values && exists i :: 0 <= i < |v| && v[i] == '*';
            Meaning(c.dimension, c.op, c.values, valid) ==
              if c.values == [""] then Err(NoValue)
              else if c.dimension == "event:goal" then
                if Token(c.op) == "==" then Ok(Goal(c.values)) else Err(GoalOperator)
              else if !valid(c.dimension) then Err(UnknownDimension)
              else if starred && Token(c.op) == "==" then Ok(Wildcard(c.dimension, false, c.values))
              else if starred && Token(c.op) == "!=" then Ok(Wildcard(c.dimension, true, c.values))
              else Ok(Plain(c.dimension, c.op, c.values))
  {
    assert AnyWildcard(c.values) <==> exists v :: v in c.values && exists i :: 0 <= i < |v| && v[i] == '*' by {
      assert forall i :: 0 <= i < |c.values| ==> c.values[i] in c.values;
    }
  }

  /** What a printed clause is taken to mean: the goal supports equality only, and an asterisk under
      equality makes a pattern. */
  lemma PrintedMeans(c: Clause, valid: string -> bool)
    requires Readable(c)
    ensures var starred := exists v :: v in c.values && exists i :: 0 <= i < |v| && v[i] == '*';
            ParseFilter(PrintClause(c), valid) ==
              if c.values == [""] then Err(NoValue)
              else if c.dimension == "event:goal" then
                if Token(c.op) == "==" then Ok(Goal(c.values)) else Err(GoalOperator)
              else if !valid(c.dimension) then Err(UnknownDimension)
              else if starred && Token(c.op) == "==" then Ok(Wildcard(c.dimension, false, c.values))
              else if starred && Token(c.op) == "!=" then Ok(Wildcard(c.dimension, true, c.values))
              else Ok(Plain(c.dimension, c.op, c.values))
  {
    hide ParseFilter, PrintClause, Meaning, Token;
    ParsePrinted(c, valid);
    MeaningOf(c, valid);
  }

  lemma Tried(text: string, op: Op, ops: seq<Op>, valid: string -> bool)
    ensures var cut := CutToken(text, Token(op));
            ParseWith(text, [op] + ops, valid) ==
            if cut.None? then ParseWith(text, ops, valid)
            else Meaning(TrimSpace(cut.value.0), op, UnescapeAll(Split(cut.value.1, '|')), valid)
  {
    assert ([op] + ops)[1..] == ops;
  }

  // ---- whole filters, read back ----

  /** What the parser makes of printed clauses: each is trimmed, then taken for what it means. */
  function Understood(cs: seq<Clause>, valid: string -> bool): Result<seq<Filter>> {
    if cs == [] then Ok([])
    else
      var first := Meaning(cs[0].dimension, cs[0].op, Trimmed(cs[0]).values, valid);
      if first.Err? then Err(first.error)
      else
        var rest := Understood(cs[1..], valid);
        if rest.Err? then rest else Ok([first.value] + rest.value)
  }

  lemma {:induction false} ParsePrintedEach(cs: seq<Clause>, valid: string -> bool)
    requires forall i :: 0 <= i < |cs| ==> Readable(cs[i])
    ensures ParseEach(PrintEach(cs), valid) == Understood(cs, valid)
  {
    if cs != [] {
      var c := cs[0];
      TrimPrinted(c);
      TrimClause(c, "");
      ParsePrinted(Trimmed(c), valid);
      ParsePrintedEach(cs[1..], valid);
      assert PrintEach(cs)[1..] == PrintEach(cs[1..]);
      hide PrintClause, ParseFilter, Meaning, TrimSpace, Readable;
    }
  }

  function PrintFront(cs: seq<Clause>): string {
    if cs == [] then "" else PrintClause(cs[0]) + [';'] + PrintFront(cs[1..])
  }

  lemma PrintStep(cs: seq<Clause>)
    requires |cs| > 1
    ensures Print(cs) == PrintClause(cs[0]) + [';'] + Print(cs[1..])
    ensures PrintFront(cs[..|cs| - 1]) == PrintClause(cs[0]) + [';'] + PrintFront(cs[1..][..|cs| - 2])
  {
    assert PrintEach(cs)[1..] == PrintEach(cs[1..]) != [];
    assert cs[..|cs| - 1][1..] == cs[1..][..|cs| - 2];
  }

  lemma {:induction false} PrintLast(cs: seq<Clause>)
    requires cs != []
    ensures Print(cs) == PrintFront(cs[..|cs| - 1]) + PrintClause(cs[|cs| - 1])
  {
    if |cs| > 1 {
      PrintStep(cs);
      PrintLast(cs[1..]);
      hide Print, PrintFront, PrintClause;
      Associates(PrintClause(cs[0]) + [';'], PrintFront(cs[1..][..|cs| - 2]), PrintClause(cs[|cs| - 1]));
    } else {
      assert PrintEach(cs) == [PrintClause(cs[0])];
    }
  }

  function LastTrimmed(cs: seq<Clause>): seq<Clause>
    requires cs != []
  {
    cs[|cs| - 1 := Trimmed(cs[|cs| - 1])]
  }

  lemma TrimFilters(cs: seq<Clause>)
    requires cs != [] && forall i :: 0 <= i < |cs| ==> Readable(cs[i])
    ensures TrimSpace(Print(cs)) == Print(LastTrimmed(cs)) != "" && |LastTrimmed(cs)| == |cs|
    ensures forall i :: 0 <= i < |cs| ==> Readable(LastTrimmed(cs)[i])
  {
    var last, trimmed := cs[|cs| - 1], LastTrimmed(cs);
    assert trimmed[..|cs| - 1] == cs[..|cs| - 1];
    PrintLast(cs);
    PrintLast(trimmed);
    TrimClause(last, PrintFront(cs[..|cs| - 1]));
    FiltersStart(cs);
    FiltersStart(trimmed);
  }

  lemma FiltersStart(cs: seq<Clause>)
    requires cs != [] && WellFormed(cs[0])
    ensures Print(cs) != "" && Print(cs)[0] == cs[0].dimension[0]
  {
    ClauseLast(cs[0]);
    if |cs| > 1 { PrintStep(cs); } else { PrintLast(cs); }
  }

  lemma {:induction false} TrimmingTwiceIsOnce(cs: seq<Clause>, valid: string -> bool)
    requires cs != []
    ensures Understood(LastTrimmed(cs), valid) == Understood(cs, valid)
  {
    if |cs| == 1 {
      if cs[0].values != [] { TrimTwice(cs[0].values[|cs[0].values| - 1]); }
      assert Trimmed(Trimmed(cs[0])) == Trimmed(cs[0]);
    } else {
      TrimmingTwiceIsOnce(cs[1..], valid);
      assert LastTrimmed(cs)[1..] == LastTrimmed(cs[1..]);
    }
  }

  lemma SplitPrinted(cs: seq<Clause>)
    requires cs != [] && forall i :: 0 <= i < |cs| ==> Readable(cs[i])
    ensures Split(Print(cs), ';') == PrintEach(cs)
  {
    PrintedAreFree(cs);
    SplitJoin(PrintEach(cs), ';');
  }

  lemma SomethingUnderstood(cs: seq<Clause>, valid: string -> bool)
    requires cs != []
    ensures Understood(cs, valid) != Ok([])
  {}

  /** The whole parser on any printed filter. */
  lemma ParserReadsPrinted(cs: seq<Clause>, valid: string -> bool)
    requires cs != [] && forall i :: 0 <= i < |cs| ==> Readable(cs[i])
    ensures ParseFilters(Print(cs), valid) == Understood(cs, valid)
  {
    hide Print, PrintEach, Split, TrimSpace, Readable, ParseEach, Understood, LastTrimmed;
    TrimFilters(cs);
    SplitPrinted(LastTrimmed(cs));
    ParsePrintedEach(LastTrimmed(cs), valid);
    TrimmingTwiceIsOnce(cs, valid);
    SomethingUnderstood(cs, valid);
  }

  // ---- when the parser reads back what was printed ----

  function AsPrinted(cs: seq<Clause>): seq<Filter> {
    if cs == [] then [] else [Plain(cs[0].dimension, cs[0].op, cs[0].values)] + AsPrinted(cs[1..])
  }

  /** Its last value does not end in white space, it is not the single empty value, no asterisk
      is compared for equality, and the dimension is a known one and not the goal. */
  predicate Faithful(c: Clause, valid: string -> bool) {
    && c.values != [] && c.values != [""]
    && (c.values[|c.values| - 1] == "" || EndsSolid(c.values[|c.values| - 1]))
    && (c.op.Is? || c.op.IsNot? ==> !AnyWildcard(c.values))
    && c.dimension != GOAL && valid(c.dimension)
  }

  lemma FaithfulMeaning(c: Clause, valid: string -> bool)
    requires WellFormed(c)
    ensures Faithful(c, valid) <==>
              Meaning(c.dimension, c.op, Trimmed(c).values, valid) == Ok(Plain(c.dimension, c.op, c.values))
  {
    var last := c.values[|c.values| - 1];
    TrimShortens(last);
    assert Trimmed(c).values[|c.values| - 1] == TrimRight(last);
    if TrimRight(last) == last { assert Trimmed(c).values == c.values; }
  }

  lemma {:induction false} TrimShortens(s: string)
    ensures |TrimRight(s)| <= |s|
    ensures TrimRight(s) == s <==> s == "" || !IsSpace(s[|s| - 1])
  {
    if s != "" && IsSpace(s[|s| - 1]) { TrimShortens(s[..|s| - 1]); }
  }

  lemma ConsEqual<T>(x: T, xs: seq<T>, y: T, ys: seq<T>)
    ensures [x] + xs == [y] + ys <==> x == y && xs == ys
  {
    assert ([x] + xs)[0] == x && ([y] + ys)[0] == y;
    assert ([x] + xs)[1..] == xs && ([y] + ys)[1..] == ys;
  }

  lemma {:induction false} FaithfulEach(cs: seq<Clause>, valid: string -> bool)
    requires forall i :: 0 <= i < |cs| ==> WellFormed(cs[i])
    ensures Understood(cs, valid) == Ok(AsPrinted(cs)) <==> forall i :: 0 <= i < |cs| ==> Faithful(cs[i], valid)
  {
    if cs != [] {
      FaithfulMeaning(cs[0], valid);
      FaithfulEach(cs[1..], valid);
      hide Faithful, Meaning, WellFormed, Trimmed;
      var first := Meaning(cs[0].dimension, cs[0].op, Trimmed(cs[0]).values, valid);
      var rest := Understood(cs[1..], valid);
      if first.Ok? && rest.Ok? {
        ConsEqual(first.value, rest.value, Plain(cs[0].dimension, cs[0].op, cs[0].values), AsPrinted(cs[1..]));
      }
      assert forall i :: 1 <= i < |cs| ==> cs[i] == cs[1..][i - 1];
      assert (forall i :: 0 <= i < |cs| ==> Faithful(cs[i], valid)) <==>
             Faithful(cs[0], valid) && forall i :: 0 <= i < |cs[1..]| ==> Faithful(cs[1..][i], valid);
    }
  }

  /** The API reads a printed filter back as it was meant exactly when every clause is faithful. */
  lemma ParserRoundTripExactlyWhen(cs: seq<Clause>, valid: string -> bool)
    requires cs != [] && forall i :: 0 <= i < |cs| ==> Readable(cs[i])
    ensures ParseFilters(Print(cs), valid) == Ok(AsPrinted(cs)) <==>
              forall i :: 0 <= i < |cs| ==> Faithful(cs[i], valid)
  {
    ParserReadsPrinted(cs, valid);
    FaithfulEach(cs, valid);
  }

  /** For one: a value that ends in a space does not come back. */
  lemma TrailingSpaceIsLost(valid: string -> bool)
    ensures var cs := [Clause("visit:city", Is, ["York "])]; ParseFilters(Print(cs), valid) != Ok(AsPrinted(cs))
  {
    var c := Clause("visit:city", Is, ["York "]);
    assert Readable(c) && !Faithful(c, valid);
    hide ParseFilters, Print, AsPrinted, Faithful, Readable;
    assert [c][0] == c;
    ParserRoundTripExactlyWhen([c], valid);
  }

  // ---- what the API keeps ----

  /** A record that every plain filter keeps. */
  ghost predicate ApiKeeps(filters: seq<Filter>, record: string -> string) {
    forall f :: f in filters ==>
      f.Plain? && ClauseKeeps(Clause(f.dimension, f.op, f.values), record(f.dimension))
  }

  lemma {:induction false} PrintedKeepAlike(cs: seq<Clause>, record: string -> string)
    ensures ApiKeeps(AsPrinted(cs), record) <==> FiltersKeep(cs, record)
  {
    if cs != [] {
      hide ClauseKeeps;
      PrintedKeepAlike(cs[1..], record);
      var c := cs[0];
      assert cs == [c] + cs[1..];
      assert Clause(c.dimension, c.op, c.values) == c;
      assert AsPrinted(cs) == [Plain(c.dimension, c.op, c.values)] + AsPrinted(cs[1..]);
    }
  }

  /** A report all of whose groups were pushed, and whose clauses the parser reads as they were
      meant: the API keeps exactly the records the report keeps. */
  lemma TheApiKeepsTheReport(groups: seq<seq<Condition>>, lookup: string -> string, valid: string -> bool,
          record: string -> string)
    requires groups != [] && forall i :: 0 <= i < |groups| ==> Expressible(groups[i], lookup)
    requires forall field, i :: 0 <= i < |lookup(field)| ==> !Special(lookup(field)[i])
    requires forall c :: c in PushedClauses(groups, lookup) ==> Readable(c) && Faithful(c, valid)
    ensures var parsed := ParseFilters(Print(PushedClauses(groups, lookup)), valid);
            parsed.Ok? && (ApiKeeps(parsed.value, record) <==> ReportKeeps(groups, lookup, record))
  {
    var cs := PushedClauses(groups, lookup);
    hide Expressible, Readable, Faithful, ParseFilters, PushedClauses, Print, Read, AsPrinted, Special;
    hide ReportKeeps, FiltersKeep, ApiKeeps;
    SomethingPushed(groups, lookup);
    AppliedFiltersKeepTheReport(groups, lookup, record);
    TranslatedFiltersReadBack(groups, lookup);
    ParserRoundTripExactlyWhen(cs, valid);
    PrintedKeepAlike(cs, record);
  }
}
