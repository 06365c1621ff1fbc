/**
 The filter string: the Looker connector prints it, and the API reads it back. A grammar of
 predicates joined by semicolons, each a dimension, an operator and values joined by bars,
 with a backslash before any character of the syntax that belongs to a value.
 */
module Filters {
  import opened Common

  datatype Op = Is | IsNot | Contains | ContainsNot

  datatype Clause = Clause(dimension: string, op: Op, values: seq<string>)

  function Token(op: Op): string {
    match op
    case Is => "=="
    case IsNot => "!="
    case Contains => "~"
    case ContainsNot => "!~"
  }

  // ---- printing ----

  /** The characters the grammar reads as syntax. */
  predicate Special(c: char) { c == '\\' || c == ';' || c == '|' || c == '=' || c == '!' || c == '~' }

  function Escape(s: string): string {
    if s == "" then "" else EscapeChar(s[0]) + Escape(s[1..])
  }

  function EscapeChar(c: char): string { if Special(c) then ['\\', c] else [c] }

  function EscapeAll(values: seq<string>): seq<string> {
    if values == [] then [] else [Escape(values[0])] + EscapeAll(values[1..])
  }

  function Join(parts: seq<string>, separator: char): string {
    if parts == [] then ""
    else if |parts| == 1 then parts[0]
    else parts[0] + [separator] + Join(parts[1..], separator)
  }

  function PrintClause(c: Clause): string { c.dimension + Token(c.op) + Join(EscapeAll(c.values), '|') }

  function PrintEach(cs: seq<Clause>): seq<string> {
    if cs == [] then [] else [PrintClause(cs[0])] + PrintEach(cs[1..])
  }

  function Print(cs: seq<Clause>): string { Join(PrintEach(cs), ';') }

  /** A dimension the API knows contains none of the syntax, and at least one value is asked for. */
  predicate WellFormed(c: Clause) {
    c.dimension != "" && c.values != [] && forall i :: 0 <= i < |c.dimension| ==> !Special(c.dimension[i])
  }

  // ---- reading ----

  /** No unescaped separator, and no backslash left hanging at the end. */
  predicate Free(s: string, separator: char) {
    s == ""
    || (s[0] == '\\' && |s| > 1 && Free(s[2..], separator))
    || (s[0] != '\\' && s[0] != separator && Free(s[1..], separator))
  }

  function Onto(prefix: string, parts: seq<string>): (r: seq<string>)
    requires parts != []
    ensures |r| == |parts|
  {
    [prefix + parts[0]] + parts[1..]
  }

  /** Splits on a separator, honouring backslash escapes. */
  function Split(s: string, separator: char): (r: seq<string>)
    ensures r != []
  {
    if s == "" then [""]
    else if s[0] == '\\' && |s| > 1 then Onto(s[..2], Split(s[2..], separator))
    else if s[0] == separator then [""] + Split(s[1..], separator)
    else Onto(s[..1], Split(s[1..], separator))
  }

  function Unescape(s: string): string {
    if s == "" then ""
    else if s[0] == '\\' && |s| > 1 then [s[1]] + Unescape(s[2..])
    else [s[0]] + Unescape(s[1..])
  }

  function UnescapeAll(parts: seq<string>): seq<string> {
    if parts == [] then [] else [Unescape(parts[0])] + UnescapeAll(parts[1..])
  }

  // ---- printing loses nothing ----

  lemma EscapeStep(s: string)
    requires s != ""
    ensures Escape(s) == EscapeChar(s[0]) + Escape(s[1..])
  {}

  lemma {:induction false} EscapeAppend(a: string, b: string)
    ensures Escape(a + b) == Escape(a) + Escape(b)
  {
    if a == "" {
      assert a + b == b;
    } else {
      hide Escape, EscapeChar;
      EscapeStep(a);
      EscapeStep(a + b);
      assert (a + b)[1..] == a[1..] + b;
      EscapeAppend(a[1..], b);
      Associates(EscapeChar(a[0]), Escape(a[1..]), Escape(b));
    }
  }

  lemma {:induction false} EscapedIsFree(s: string, separator: char)
    requires Special(separator)
    ensures Free(Escape(s), separator)
  {
    if s != "" {
      EscapedIsFree(s[1..], separator);
      var head, rest := if Special(s[0]) then ['\\', s[0]] else [s[0]], Escape(s[1..]);
      assert Escape(s) == head + rest;
      assert (head + rest)[|head|..] == rest;
    }
  }

  lemma {:induction false} PlainIsFree(s: string, separator: char)
    requires forall i :: 0 <= i < |s| ==> s[i] != '\\' && s[i] != separator
    ensures Free(s, separator)
  {
    if s != "" { PlainIsFree(s[1..], separator); }
  }

  lemma {:induction false} FreeAppend(a: string, b: string, separator: char)
    requires Free(a, separator) && Free(b, separator)
    ensures Free(a + b, separator)
  {
    if a == "" {
      assert a + b == b;
    } else {
      var n := if a[0] == '\\' then 2 else 1;
      FreeAppend(a[n..], b, separator);
      assert (a + b)[n..] == a[n..] + b;
    }
  }

  lemma {:induction false} UnescapeEscape(s: string)
    ensures Unescape(Escape(s)) == s
  {
    if s != "" {
      UnescapeEscape(s[1..]);
      var head, rest := if Special(s[0]) then ['\\', s[0]] else [s[0]], Escape(s[1..]);
      assert Escape(s) == head + rest;
      assert (head + rest)[|head|..] == rest;
      assert s == [s[0]] + s[1..];
    }
  }

  /** A free part is split off whole. */
  lemma {:induction false} SplitFree(part: string, separator: char, rest: string)
    requires Free(part, separator) && separator != '\\'
    ensures Split(part, separator) == [part]
    ensures Split(part + [separator] + rest, separator) == [part] + Split(rest, separator)
  {
    var whole := part + [separator] + rest;
    if part == "" {
      assert whole == [separator] + rest;
      assert whole[1..] == rest;
    } else {
      var n := if part[0] == '\\' then 2 else 1;
      SplitFree(part[n..], separator, rest);
      assert whole[n..] == part[n..] + [separator] + rest;
      assert whole[..n] == part[..n];
      assert part[..n] + part[n..] == part;
    }
  }

  lemma {:induction false} SplitJoin(parts: seq<string>, separator: char)
    requires parts != [] && separator != '\\'
    requires forall i :: 0 <= i < |parts| ==> Free(parts[i], separator)
    ensures Split(Join(parts, separator), separator) == parts
  {
    if |parts| == 1 {
      SplitFree(parts[0], separator, "");
    } else {
      SplitJoin(parts[1..], separator);
      SplitFree(parts[0], separator, Join(parts[1..], separator));
    }
  }

  lemma {:induction false} EscapedValues(values: seq<string>, separator: char)
    requires Special(separator)
    ensures |EscapeAll(values)| == |values|
    ensures forall i :: 0 <= i < |values| ==> Free(EscapeAll(values)[i], separator)
    ensures UnescapeAll(EscapeAll(values)) == values
  {
    if values != [] {
      EscapedValues(values[1..], separator);
      EscapedIsFree(values[0], separator);
      UnescapeEscape(values[0]);
      assert EscapeAll(values)[1..] == EscapeAll(values[1..]);
    }
  }

  lemma {:induction false} JoinIsFree(parts: seq<string>, joined: char, separator: char)
    requires forall i :: 0 <= i < |parts| ==> Free(parts[i], separator)
    requires joined != separator && joined != '\\'
    ensures Free(Join(parts, joined), separator)
  {
    if |parts| > 1 {
      JoinIsFree(parts[1..], joined, separator);
      PlainIsFree([joined], separator);
      FreeAppend(parts[0], [joined], separator);
      FreeAppend(parts[0] + [joined], Join(parts[1..], joined), separator);
    }
  }

  /** The values, as printed, contain no syntax but the bars between them. */
  lemma ValuesAreFree(values: seq<string>, separator: char)
    requires Special(separator) && separator != '|'
    ensures Free(Join(EscapeAll(values), '|'), separator)
  {
    EscapedValues(values, separator);
    JoinIsFree(EscapeAll(values), '|', separator);
  }

  lemma ClauseIsFree(c: Clause)
    requires WellFormed(c)
    ensures Free(PrintClause(c), ';')
  {
    PlainIsFree(c.dimension, ';');
    PlainIsFree(Token(c.op), ';');
    ValuesAreFree(c.values, ';');
    FreeAppend(c.dimension, Token(c.op), ';');
    FreeAppend(c.dimension + Token(c.op), Join(EscapeAll(c.values), '|'), ';');
  }

  lemma {:induction false} PrintedAreFree(cs: seq<Clause>)
    requires forall i :: 0 <= i < |cs| ==> WellFormed(cs[i])
    ensures |PrintEach(cs)| == |cs|
    ensures forall i :: 0 <= i < |cs| ==> PrintEach(cs)[i] == PrintClause(cs[i]) && Free(PrintEach(cs)[i], ';')
  {
    if cs != [] {
      PrintedAreFree(cs[1..]);
      ClauseIsFree(cs[0]);
      forall i | 0 <= i < |cs|
        ensures PrintEach(cs)[i] == PrintClause(cs[i]) && Free(PrintEach(cs)[i], ';')
      {
        if i > 0 { assert cs[i] == cs[1..][i - 1]; }
      }
    }
  }

  // ---- the grammar ----

  datatype Pieces = Pieces(dimension: string, op: Op, rest: string)

  /** The dimension and the operator end at the first unescaped operator character. */
  function Cut(s: string): Option<Pieces> {
    if s == "" then None
    else if s[0] == '\\' then if |s| == 1 then None else Before(s[..2], Cut(s[2..]))
    else if Pair(s, '=', '=') then Some(Pieces("", Is, s[2..]))
    else if Pair(s, '!', '=') then Some(Pieces("", IsNot, s[2..]))
    else if Pair(s, '!', '~') then Some(Pieces("", ContainsNot, s[2..]))
    else if s[0] == '~' then Some(Pieces("", Contains, s[1..]))
    else if s[0] == '=' || s[0] == '!' then None
    else Before(s[..1], Cut(s[1..]))
  }

  predicate Pair(s: string, first: char, second: char) { |s| > 1 && s[0] == first && s[1] == second }

  function Before(prefix: string, cut: Option<Pieces>): Option<Pieces> {
    if cut.None? then None else Some(cut.value.(dimension := prefix + cut.value.dimension))
  }

  function ReadClause(s: string): Option<Clause> {
    var cut := Cut(s);
    if cut.None? then None else Some(Clause(cut.value.dimension, cut.value.op, UnescapeAll(Split(cut.value.rest, '|'))))
  }

  function ReadEach(parts: seq<string>): Option<seq<Clause>> {
    if parts == [] then Some([])
    else
      var first, rest := ReadClause(parts[0]), ReadEach(parts[1..]);
      if first.None? || rest.None? then None else Some([first.value] + rest.value)
  }

  function Read(s: string): Option<seq<Clause>> { ReadEach(Split(s, ';')) }

  lemma CutHere(op: Op, rest: string)
    ensures Cut(Token(op) + rest) == Some(Pieces("", op, rest))
  {
    var whole := Token(op) + rest;
    assert whole[|Token(op)|..] == rest;
    assert forall i :: 0 <= i < |Token(op)| ==> whole[i] == Token(op)[i];
  }

  /** No unescaped character of an operator, and no backslash left hanging. */
  predicate Operatorless(s: string) { Free(s, '=') && Free(s, '!') && Free(s, '~') }

  /** On any text at all: the cut is at the first unescaped character of an operator, and only if an
      operator begins there. */
  lemma CutsExactlyWhen(s: string, dimension: string, op: Op, rest: string)
    ensures Cut(s) == Some(Pieces(dimension, op, rest)) <==>
              s == dimension + Token(op) + rest && Operatorless(dimension)
  {
    if Operatorless(dimension) { CutFinds(dimension, op, rest); }
    if Cut(s).Some? { CutTells(s); }
  }

  lemma {:induction false} CutFinds(dimension: string, op: Op, rest: string)
    requires Operatorless(dimension)
    ensures Cut(dimension + Token(op) + rest) == Some(Pieces(dimension, op, rest))
  {
    var whole := dimension + Token(op) + rest;
    if dimension == "" {
      assert whole == Token(op) + rest;
      CutHere(op, rest);
    } else {
      var n := if dimension[0] == '\\' then 2 else 1;
      CutFinds(dimension[n..], op, rest);
      assert whole[n..] == dimension[n..] + Token(op) + rest;
      assert whole[..n] == dimension[..n];
      assert Cut(whole) == Before(whole[..n], Cut(whole[n..]));
      assert dimension[..n] + dimension[n..] == dimension;
    }
  }

  lemma {:induction false} CutTells(s: string)
    requires Cut(s).Some?
    ensures var cut := Cut(s).value; s == cut.dimension + Token(cut.op) + cut.rest && Operatorless(cut.dimension)
  {
    var cut := Cut(s).value;
    if cut.dimension == "" {
      assert s == Token(cut.op) + cut.rest;
    } else {
      var n := if s[0] == '\\' then 2 else 1;
      var inner := Cut(s[n..]).value;
      CutTells(s[n..]);
      assert cut.dimension == s[..n] + inner.dimension;
      assert cut.dimension[n..] == inner.dimension;
      assert s == s[..n] + s[n..];
    }
  }

  lemma ClauseRoundTrip(c: Clause)
    requires WellFormed(c)
    ensures ReadClause(PrintClause(c)) == Some(c)
  {
    PlainIsFree(c.dimension, '=');
    PlainIsFree(c.dimension, '!');
    PlainIsFree(c.dimension, '~');
    CutFinds(c.dimension, c.op, Join(EscapeAll(c.values), '|'));
    EscapedValues(c.values, '|');
    SplitJoin(EscapeAll(c.values), '|');
  }

  lemma {:induction false} EachRoundTrip(cs: seq<Clause>)
    requires forall i :: 0 <= i < |cs| ==> WellFormed(cs[i])
    ensures ReadEach(PrintEach(cs)) == Some(cs)
  {
    hide ReadClause, PrintClause;
    if cs != [] {
      EachRoundTrip(cs[1..]);
      ClauseRoundTrip(cs[0]);
      assert PrintEach(cs)[1..] == PrintEach(cs[1..]);
      assert [cs[0]] + cs[1..] == cs;
    }
  }

  /** Reading by the grammar undoes printing, for all values. */
  lemma GrammarRoundTrip(cs: seq<Clause>)
    requires cs != [] && forall i :: 0 <= i < |cs| ==> WellFormed(cs[i])
    ensures Read(Print(cs)) == Some(cs)
  {
    PrintedAreFree(cs);
    SplitJoin(PrintEach(cs), ';');
    EachRoundTrip(cs);
  }

  /** So different filters are never printed alike. */
  lemma PrintIsInjective(a: seq<Clause>, b: seq<Clause>)
    requires a != [] && forall i :: 0 <= i < |a| ==> WellFormed(a[i])
    requires b != [] && forall i :: 0 <= i < |b| ==> WellFormed(b[i])
    requires Print(a) == Print(b)
    ensures a == b
  {
    GrammarRoundTrip(a);
    GrammarRoundTrip(b);
  }

  // ---- translating a report's filters ----

  /** One condition of an OR group, as the report states it. */
  datatype Condition = Condition(field: string, operator: string, kind: string, values: seq<string>)

  /** The operators the API can express. */
  function Operator(operator: string, kind: string): Option<Op> {
    if operator == "EQUALS" || operator == "IN" then
      if kind == "INCLUDE" then Some(Is) else if kind == "EXCLUDE" then Some(IsNot) else None
    else if operator == "CONTAINS" then
      if kind == "INCLUDE" then Some(Contains) else if kind == "EXCLUDE" then Some(ContainsNot) else None
    else None
  }

  predicate Alike(a: Condition, b: Condition) { a.field == b.field && a.operator == b.operator && a.kind == b.kind }

  function AllValues(group: seq<Condition>): seq<string> {
    if group == [] then [] else AllValues(group[..|group| - 1]) + group[|group| - 1].values
  }

  /** An OR group is one clause when its conditions differ only in their values. */
  ghost predicate Expressible(group: seq<Condition>, lookup: string -> string) {
    && group != []
    && Operator(group[0].operator, group[0].kind).Some? && lookup(group[0].field) != ""
    && (forall i :: 0 <= i < |group| ==> Alike(group[i], group[0]))
    && AllValues(group) != []
  }

  ghost function ClauseOf(group: seq<Condition>, lookup: string -> string): Clause
    requires Expressible(group, lookup)
  {
    Clause(lookup(group[0].field), Operator(group[0].operator, group[0].kind).value, AllValues(group))
  }

  method EscapeFilterValue(value: string) returns (out: string)
    ensures out == Escape(value)
  {
    hide Escape;
    out := "";
    EscapeNothing();
    for i := 0 to |value|
      invariant out == Escape(value[..i])
    {
      EscapeOneMore(value, i);
      if Special(value[i]) { out := out + ['\\']; }
      out := out + [value[i]];
    }
    assert value[..|value|] == value;
  }

  lemma EscapeNothing()
    ensures Escape("") == ""
  {}

  lemma EscapeOneMore(value: string, i: nat)
    requires i < |value|
    ensures Escape(value[..i + 1]) ==
              Escape(value[..i]) + if Special(value[i]) then ['\\', value[i]] else [value[i]]
  {
    assert value[..i + 1] == value[..i] + [value[i]];
    EscapeAppend(value[..i], [value[i]]);
    EscapeStep([value[i]]);
    assert [value[i]][1..] == "";
  }

  method EscapeValues(members: seq<string>) returns (escaped: seq<string>)
    ensures escaped == EscapeAll(members)
  {
    hide Escape;
    escaped := [];
    for j := 0 to |members|
      invariant escaped == EscapeAll(members[..j])
    {
      var value := EscapeFilterValue(members[j]);
      EscapeAllAppend(members[..j], [members[j]]);
      assert members[..j + 1] == members[..j] + [members[j]];
      escaped := escaped + [value];
    }
    assert members[..|members|] == members;
  }

  /** One OR group as text: nothing unless its conditions are all on one field the API knows, with
      one operator it has, included or excluded alike, and ask for some value. */
  method TranslateFilterGroup(group: seq<Condition>, lookup: string -> string) returns (printed: Option<string>)
    ensures printed.Some? <==> Expressible(group, lookup)
    ensures printed.Some? ==> printed.value == PrintClause(ClauseOf(group, lookup))
    ensures printed.Some? <==>
              && group != [] && lookup(group[0].field) != ""
              && (|| group[0].operator == "EQUALS" || group[0].operator == "IN" || group[0].operator == "CONTAINS")
              && (group[0].kind == "INCLUDE" || group[0].kind == "EXCLUDE")
              && (forall c :: c in group ==> c.(values := []) == group[0].(values := []))
              && (exists c :: c in group && c.values != [])
    ensures printed.Some? ==>
              var token := if group[0].kind == "INCLUDE" then if group[0].operator == "CONTAINS" then "~" else "=="
                           else if group[0].operator == "CONTAINS" then "!~" else "!=";
              printed.value == lookup(group[0].field) + token + Join(EscapeAll(AllValues(group)), '|')
  {
    ExpressibleMeans(group, lookup);
    hide EscapeAll;
    if group == [] { return None; }
    var first := group[0];
    var op := Operator(first.operator, first.kind);
    if op.None? { return None; }
    var dimension := lookup(first.field);
    if dimension == "" { return None; }
    var values, alike := GroupValues(group);
    if !alike || values == [] { return None; }
    printed := Some(dimension + Token(op.value) + Join(values, '|'));
  }

  lemma ExpressibleMeans(group: seq<Condition>, lookup: string -> string)
    ensures Expressible(group, lookup) <==>
              && group != [] && lookup(group[0].field) != ""
              && (|| group[0].operator == "EQUALS" || group[0].operator == "IN" || group[0].operator == "CONTAINS")
              && (group[0].kind == "INCLUDE" || group[0].kind == "EXCLUDE")
              && (forall c :: c in group ==> c.(values := []) == group[0].(values := []))
              && (exists c :: c in group && c.values != [])
  {
    AllValuesMean(group);
    if AllValues(group) != [] { assert AllValues(group)[0] in AllValues(group); }
    if c :| c in group && c.values != [] { assert c.values[0] in AllValues(group); }
  }

  /** What a group asks for is what its conditions ask for. */
  lemma {:induction false} AllValuesMean(group: seq<Condition>)
    ensures forall v :: v in AllValues(group) <==> exists c :: c in group && v in c.values
  {
    if group != [] {
      var front, last := group[..|group| - 1], group[|group| - 1];
      AllValuesMean(front);
      assert group == front + [last];
      assert last in group && forall c :: c in front ==> c in group;
    }
  }

  /** Gathers the escaped values of a group whose conditions are all like its first. */
  method GroupValues(group: seq<Condition>) returns (values: seq<string>, alike: bool)
    requires group != []
    ensures alike <==> forall k :: 0 <= k < |group| ==> Alike(group[k], group[0])
    ensures alike ==> values == EscapeAll(AllValues(group)) && (values == [] <==> AllValues(group) == [])
  {
    hide EscapeAll;
    values, alike := [], false;
    EscapeAllSize([]);
    for i := 0 to |group|
      invariant values == EscapeAll(AllValues(group[..i]))
      invariant forall k :: 0 <= k < i ==> Alike(group[k], group[0])
    {
      if !Alike(group[i], group[0]) { return; }
      var members := EscapeValues(group[i].values);
      assert group[..i + 1][..i] == group[..i];
      EscapeAllAppend(AllValues(group[..i]), group[i].values);
      values := values + members;
    }
    assert group[..|group|] == group;
    EscapeAllSize(AllValues(group));
    alike := true;
  }

  lemma {:induction false} EscapeAllAppend(a: seq<string>, b: seq<string>)
    ensures EscapeAll(a + b) == EscapeAll(a) + EscapeAll(b)
  {
    if a == [] {
      assert a + b == b;
    } else {
      EscapeAllAppend(a[1..], b);
      assert (a + b)[1..] == a[1..] + b;
    }
  }

  lemma {:induction false} EscapeAllSize(values: seq<string>)
    ensures |EscapeAll(values)| == |values|
  {
    if values != [] { EscapeAllSize(values[1..]); }
  }

  /** The groups that can be pushed, as clauses. */
  ghost function PushedClauses(groups: seq<seq<Condition>>, lookup: string -> string): seq<Clause> {
    if groups == [] then []
    else
      var front, last := PushedClauses(groups[..|groups| - 1], lookup), groups[|groups| - 1];
      if Expressible(last, lookup) then front + [ClauseOf(last, lookup)] else front
  }

  /** Pushes what the API can express, and says that the filters were applied only if that was
      all of them. */
  method TranslateFilters(groups: seq<seq<Condition>>, lookup: string -> string) returns (filters: string,
          applied: bool)
    ensures filters == Print(PushedClauses(groups, lookup))
    ensures applied <==> groups != [] && forall i :: 0 <= i < |groups| ==> Expressible(groups[i], lookup)
    ensures applied && (forall field, i :: 0 <= i < |lookup(field)| ==> !Special(lookup(field)[i])) ==>
              forall record :: KeepsAsAsked(filters, groups, lookup, record)
  {
    hide Expressible, ClauseOf, PrintClause, KeepsAsAsked;
    if groups == [] { return "", false; }
    var pushed: seq<string> := [];
    applied := true;
    for i := 0 to |groups|
      invariant pushed == PrintEach(PushedClauses(groups[..i], lookup))
      invariant applied <==> forall k :: 0 <= k < i ==> Expressible(groups[k], lookup)
    {
      var clause := TranslateFilterGroup(groups[i], lookup);
      assert groups[..i + 1][..i] == groups[..i];
      if clause.Some? {
        PrintEachAppend(PushedClauses(groups[..i], lookup), ClauseOf(groups[i], lookup));
        pushed := pushed + [clause.value];
      } else {
        applied := false;
      }
    }
    assert groups[..|groups|] == groups;
    filters := Join(pushed, ';');
    if applied && forall field, i :: 0 <= i < |lookup(field)| ==> !Special(lookup(field)[i]) {
      forall record
        ensures KeepsAsAsked(filters, groups, lookup, record)
      {
        AppliedFiltersKeepTheReport(groups, lookup, record);
      }
    }
  }

  lemma {:induction false} PrintEachAppend(cs: seq<Clause>, c: Clause)
    ensures PrintEach(cs + [c]) == PrintEach(cs) + [PrintClause(c)]
  {
    if cs == [] {
      assert cs + [c] == [c];
    } else {
      PrintEachAppend(cs[1..], c);
      assert (cs + [c])[1..] == cs[1..] + [c];
    }
  }

  /** Reading a translated filter gives back exactly the dimension, operator and values of every
      group that was pushed. */
  lemma TranslatedFiltersReadBack(groups: seq<seq<Condition>>, lookup: string -> string)
    requires PushedClauses(groups, lookup) != []
    requires forall field, i :: 0 <= i < |lookup(field)| ==> !Special(lookup(field)[i])
    ensures Read(Print(PushedClauses(groups, lookup))) == Some(PushedClauses(groups, lookup))
  {
    PushedAreWellFormed(groups, lookup);
    GrammarRoundTrip(PushedClauses(groups, lookup));
  }

  lemma {:induction false} PushedAreWellFormed(groups: seq<seq<Condition>>, lookup: string -> string)
    requires forall field, i :: 0 <= i < |lookup(field)| ==> !Special(lookup(field)[i])
    ensures forall i :: 0 <= i < |PushedClauses(groups, lookup)| ==> WellFormed(PushedClauses(groups, lookup)[i])
  {
    if groups != [] { PushedAreWellFormed(groups[..|groups| - 1], lookup); }
  }

  // ---- what is kept ----

  /** Occurs somewhere in the value; nothing occurs everywhere. */
  predicate Within(part: string, value: string) {
    exists i, j :: 0 <= i <= j <= |value| && value[i..j] == part
  }

  lemma WithinIsTransitive(a: string, b: string, c: string)
    requires Within(a, b) && Within(b, c)
    ensures Within(a, c)
  {
    var i, j :| 0 <= i <= j <= |b| && b[i..j] == a;
    var k, l :| 0 <= k <= l <= |c| && c[k..l] == b;
    assert forall n :: 0 <= n < |a| ==> a[n] == b[i + n] == c[k + i + n];
    assert c[k + i..k + j] == a;
  }

  lemma WithinItself(a: string)
    ensures Within(a, a)
  {
    assert a[0..|a|] == a;
  }

  /** What a condition's operator finds in a value. */
  predicate Finds(operator: string, wanted: string, value: string) {
    if operator == "CONTAINS" then Within(wanted, value) else wanted == value
  }

  /** One condition of a report, of a field that has this value: an inclusion keeps what equals or
      contains one of its values, an exclusion what does not. */
  ghost predicate ConditionKeeps(c: Condition, value: string) {
    if c.kind == "EXCLUDE" then forall v :: v in c.values ==> !Finds(c.operator, v, value)
    else exists v :: v in c.values && Finds(c.operator, v, value)
  }

  /** A group keeps what one of its inclusions keeps, or what all of its exclusions keep. */
  ghost predicate GroupKeeps(group: seq<Condition>, value: string) {
    if group != [] && group[0].kind == "EXCLUDE" then forall c :: c in group ==> ConditionKeeps(c, value)
    else exists c :: c in group && ConditionKeeps(c, value)
  }

  /** A clause of the API, on a record whose dimension has this value. */
  ghost predicate ClauseKeeps(c: Clause, value: string) {
    match c.op
    case Is => exists v :: v in c.values && v == value
    case IsNot => forall v :: v in c.values ==> v != value
    case Contains => exists v :: v in c.values && Within(v, value)
    case ContainsNot => forall v :: v in c.values ==> !Within(v, value)
  }

  /** A record, as the value of each dimension, that every clause keeps. */
  ghost predicate FiltersKeep(cs: seq<Clause>, record: string -> string) {
    forall c :: c in cs ==> ClauseKeeps(c, record(c.dimension))
  }

  /** A record that these groups keep, each on the dimension of its field. */
  ghost predicate ReportKeeps(groups: seq<seq<Condition>>, lookup: string -> string, record: string -> string) {
    forall group: seq<Condition> :: group in groups && group != [] ==> GroupKeeps(group, record(lookup(group[0].field)))
  }

  lemma ClauseKeepsTheGroup(group: seq<Condition>, lookup: string -> string, value: string)
    requires Expressible(group, lookup)
    ensures ClauseKeeps(ClauseOf(group, lookup), value) <==> GroupKeeps(group, value)
  {
    AllValuesMean(group);
    hide AllValues, Within;
    var clause, first := ClauseOf(group, lookup), group[0];
    assert forall c :: c in group ==> Alike(c, first);
    if first.kind == "EXCLUDE" {
      assert ClauseKeeps(clause, value) <==> forall v :: v in clause.values ==> !Finds(first.operator, v, value);
      assert GroupKeeps(group, value) <==>
             forall c, v :: c in group && v in c.values ==> !Finds(first.operator, v, value);
    } else {
      assert ClauseKeeps(clause, value) <==> exists v :: v in clause.values && Finds(first.operator, v, value);
      assert GroupKeeps(group, value) <==>
             exists c, v :: c in group && v in c.values && Finds(first.operator, v, value);
    }
  }

  /** What the API reads keeps exactly the records that the groups which could be pushed keep. */
  lemma {:induction false} PushedKeepTheReport(groups: seq<seq<Condition>>, lookup: string -> string,
          record: string -> string)
    ensures FiltersKeep(PushedClauses(groups, lookup), record) <==>
              forall group: seq<Condition> :: group in groups && Expressible(group, lookup) ==>
                GroupKeeps(group, record(lookup(group[0].field)))
  {
    if groups != [] {
      hide Expressible, GroupKeeps, ClauseKeeps;
      var front, last := groups[..|groups| - 1], groups[|groups| - 1];
      PushedKeepTheReport(front, lookup, record);
      assert groups == front + [last];
      if Expressible(last, lookup) {
        var clause := ClauseOf(last, lookup);
        ClauseKeepsTheGroup(last, lookup, record(clause.dimension));
        assert PushedClauses(groups, lookup) == PushedClauses(front, lookup) + [clause];
      }
    }
  }

  lemma SomethingPushed(groups: seq<seq<Condition>>, lookup: string -> string)
    requires groups != [] && forall i :: 0 <= i < |groups| ==> Expressible(groups[i], lookup)
    ensures PushedClauses(groups, lookup) != []
  {
    assert Expressible(groups[|groups| - 1], lookup);
  }

  /** The text, as the grammar reads it, keeps the record exactly if the report does. */
  ghost predicate KeepsAsAsked(text: string, groups: seq<seq<Condition>>, lookup: string -> string,
          record: string -> string) {
    Read(text).Some? && (FiltersKeep(Read(text).value, record) <==> ReportKeeps(groups, lookup, record))
  }

  /** When the connector says it applied the filters, what the API reads back keeps exactly the
      records the report keeps; the report's service will not filter them again. */
  lemma AppliedFiltersKeepTheReport(groups: seq<seq<Condition>>, lookup: string -> string, record: string -> string)
    requires groups != [] && forall i :: 0 <= i < |groups| ==> Expressible(groups[i], lookup)
    requires forall field, i :: 0 <= i < |lookup(field)| ==> !Special(lookup(field)[i])
    ensures KeepsAsAsked(Print(PushedClauses(groups, lookup)), groups, lookup, record)
  {
    SomethingPushed(groups, lookup);
    hide Expressible, Read, Print, FiltersKeep, GroupKeeps;
    TranslatedFiltersReadBack(groups, lookup);
    PushedKeepTheReport(groups, lookup, record);
    forall group | group in groups ensures group != [] && Expressible(group, lookup) {
      var i :| 0 <= i < |groups| && groups[i] == group;
      ExpressibleMeans(group, lookup);
    }
  }

  /** A report joins the conditions of a group by or. Of inclusions that is what a group keeps. Of
      exclusions the clause keeps less: it agrees exactly when each value that one condition
      excludes is excluded by every other. */
  lemma GroupsAreOrsExactlyWhen(group: seq<Condition>, lookup: string -> string)
    requires Expressible(group, lookup)
    ensures (forall value :: ClauseKeeps(ClauseOf(group, lookup), value) <==>
                             exists c :: c in group && ConditionKeeps(c, value)) <==>
            group[0].kind == "INCLUDE" ||
            forall a, b, v :: a in group && b in group && v in a.values ==> !ConditionKeeps(b, v)
  {
    var first := group[0];
    assert forall c :: c in group ==> Alike(c, first);
    forall value
      ensures ClauseKeeps(ClauseOf(group, lookup), value) <==> GroupKeeps(group, value)
    {
      ClauseKeepsTheGroup(group, lookup, value);
    }
    hide ClauseKeeps, ClauseOf, Finds, ConditionKeeps;
    if first.kind == "EXCLUDE" {
      forall value
        ensures GroupKeeps(group, value) ==> ConditionKeeps(first, value)
      {
        assert first in group;
      }
      if forall a, b, v :: a in group && b in group && v in a.values ==> !ConditionKeeps(b, v) {
        forall value, c | c in group && ConditionKeeps(c, value)
          ensures GroupKeeps(group, value)
        {
          OneKeepsLikeAll(group, c, value);
        }
      } else {
        var a, b, v :| a in group && b in group && v in a.values && ConditionKeeps(b, v);
        ExcludesIts(a, v);
        assert !GroupKeeps(group, v);
      }
    }
  }

  lemma ExcludesIts(a: Condition, v: string)
    requires a.kind == "EXCLUDE" && v in a.values
    ensures !ConditionKeeps(a, v)
  {
    FindsFurther(a.operator, v, v, v);
  }

  lemma OneKeepsLikeAll(group: seq<Condition>, c: Condition, value: string)
    requires c in group && ConditionKeeps(c, value)
    requires forall a :: a in group ==> a.operator == c.operator && a.kind == "EXCLUDE"
    requires forall a, b, v :: a in group && b in group && v in a.values ==> !ConditionKeeps(b, v)
    ensures GroupKeeps(group, value)
  {
    forall a | a in group
      ensures ConditionKeeps(a, value)
    {
      hide Finds;
      forall v | v in a.values
        ensures !Finds(c.operator, v, value)
      {
        assert !ConditionKeeps(c, v);
        var w :| w in c.values && Finds(c.operator, w, v);
        FindsFurther(c.operator, w, v, value);
      }
    }
  }

  lemma FindsFurther(operator: string, a: string, b: string, c: string)
    ensures Finds(operator, a, a)
    ensures Finds(operator, a, b) && Finds(operator, b, c) ==> Finds(operator, a, c)
  {
    WithinItself(a);
    if Within(a, b) && Within(b, c) { WithinIsTransitive(a, b, c); }
  }

  /** So an or of two exclusions loses records: "not a or not b" is pushed as "neither a nor b". */
  lemma AnOrOfExclusionsLosesRecords(field: string, a: string, b: string, lookup: string -> string)
    requires lookup(field) != "" && a != b
    ensures var group := [Condition(field, "EQUALS", "EXCLUDE", [a]), Condition(field, "EQUALS", "EXCLUDE", [b])];
            && Expressible(group, lookup) && !ClauseKeeps(ClauseOf(group, lookup), a)
            && exists c :: c in group && ConditionKeeps(c, a)
  {
    var one, other := Condition(field, "EQUALS", "EXCLUDE", [a]), Condition(field, "EQUALS", "EXCLUDE", [b]);
    var group := [one, other];
    assert one in group && other in group && a in one.values;
    ExpressibleMeans(group, lookup);
    ClauseKeepsTheGroup(group, lookup, a);
    assert !ConditionKeeps(one, a) && ConditionKeeps(other, a);
  }
}
