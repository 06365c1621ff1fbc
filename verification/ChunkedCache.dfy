/**
 The connector's response cache: a long answer is split over several entries behind a
 manifest, and the cache may lose any entry at any time.
 */
module ChunkedCache {
  import opened Common
  import opened Decimals

  type Entries = map<string, string>

  const CHUNK_CHARS: nat := 25000
  const MAX_CHUNKS: nat := 8
  const MARKER := "#chunks:"

  // ---- the layout of a body ----

  function ChunkName(key: string, i: nat): string { key + ":" + Decimal(i) }

  function Count(body: string): nat { (|body| + CHUNK_CHARS - 1) / CHUNK_CHARS }

  predicate Short(body: string) { |body| <= CHUNK_CHARS }

  /** A longer answer than this is not cached at all. */
  predicate Cacheable(body: string) { Count(body) <= MAX_CHUNKS }

  function Chunk(body: string, i: nat): string {
    body[Min(i * CHUNK_CHARS, |body|)..Min((i + 1) * CHUNK_CHARS, |body|)]
  }

  function Manifest(body: string): string { MARKER + Decimal(Count(body)) }

  function HeadOf(body: string): string { if Short(body) then body else Manifest(body) }

  /** Several chunks on end. */
  function Stretch(body: string, from: nat, n: nat): string
    requires from <= n
  {
    body[Min(from * CHUNK_CHARS, |body|)..Min(n * CHUNK_CHARS, |body|)]
  }

  lemma StretchGrows(body: string, from: nat, n: nat)
    requires from < n
    ensures Stretch(body, from, n - 1) + Chunk(body, n - 1) == Stretch(body, from, n)
  {}

  lemma StretchIsAll(body: string)
    ensures Stretch(body, 0, Count(body)) == body
    ensures forall n :: n >= Count(body) ==> Min(n * CHUNK_CHARS, |body|) == |body|
  {
    assert body[0..|body|] == body;
  }

  lemma StretchToTheEnd(body: string, from: nat)
    requires from < Count(body)
    ensures from * CHUNK_CHARS < |body| && Stretch(body, from, Count(body)) == body[from * CHUNK_CHARS..]
  {
    assert body[from * CHUNK_CHARS..|body|] == body[from * CHUNK_CHARS..];
  }

  // ---- reading the manifest's number ----

  /** White space and line ends, as the script language knows them. */
  predicate IsBlank(c: char) {
    || '\t' <= c <= '\r' || c == ' ' || c == '\U{A0}' || c == '\U{1680}' || '\U{2000}' <= c <= '\U{200A}'
    || c == '\U{2028}' || c == '\U{2029}' || c == '\U{202F}' || c == '\U{205F}' || c == '\U{3000}' || c == '\U{FEFF}'
  }

  function SkipBlanks(s: string): string { if s != "" && IsBlank(s[0]) then SkipBlanks(s[1..]) else s }

  function LeadingDigits(s: string): (digits: string)
    ensures AllDigits(digits)
  {
    if s != "" && IsDigit(s[0]) then [s[0]] + LeadingDigits(s[1..]) else ""
  }

  /** The integer a string starts with, in base ten, or not a number. */
  function ParseInt(s: string): Option<int> {
    var text := SkipBlanks(s);
    var signed := text != "" && (text[0] == '+' || text[0] == '-');
    var digits := LeadingDigits(if signed then text[1..] else text);
    if digits == "" then None
    else if signed && text[0] == '-' then Some(0 - Value(digits)) else Some(Value(digits))
  }

  lemma {:induction false} LeadingDigitsOfDigits(s: string)
    requires AllDigits(s)
    ensures LeadingDigits(s) == s
  {
    if s != "" {
      LeadingDigitsOfDigits(s[1..]);
      assert s == [s[0]] + s[1..];
    }
  }

  lemma ParseDecimal(n: nat)
    ensures ParseInt(Decimal(n)) == Some(n)
  {
    var s := Decimal(n);
    assert IsDigit(s[0]);
    assert SkipBlanks(s) == s;
    LeadingDigitsOfDigits(s);
    ValueOfDecimal(n);
  }

  /** What is read off any text: the number written after blanks and an optional sign, as far as the
      digits go, and none where there are no digits. */
  lemma ParsesExactly(blanks: string, sign: string, digits: string, rest: string)
    requires forall i :: 0 <= i < |blanks| ==> IsBlank(blanks[i])
    requires sign in {"", "+", "-"} && AllDigits(digits)
    requires rest != "" ==> !IsDigit(rest[0])
    requires digits == "" && sign == "" && rest != "" ==> !IsBlank(rest[0]) && rest[0] != '+' && rest[0] != '-'
    ensures ParseInt(blanks + sign + digits + rest) ==
              if digits == "" then None else Some(if sign == "-" then 0 - Value(digits) else Value(digits))
  {
    hide SkipBlanks, LeadingDigits, Value, ParseInt;
    var text := sign + digits + rest;
    assert blanks + sign + digits + rest == blanks + text;
    StartsSolid(sign, digits, rest);
    SkipsBlanks(blanks, text);
    DigitsEnd(digits, rest);
    ReadsNumber(blanks + text, text, sign, digits, rest);
  }

  lemma StartsSolid(sign: string, digits: string, rest: string)
    requires sign in {"", "+", "-"} && AllDigits(digits)
    requires digits == "" && sign == "" && rest != "" ==> !IsBlank(rest[0])
    ensures var text := sign + digits + rest; text != "" ==> !IsBlank(text[0])
  {
    if sign != "" {
      assert (sign + digits + rest)[0] == sign[0];
    } else if digits != "" {
      assert (sign + digits + rest)[0] == digits[0] && IsDigit(digits[0]);
    } else {
      assert sign + digits + rest == rest;
    }
  }

  lemma ReadsNumber(s: string, text: string, sign: string, digits: string, rest: string)
    requires SkipBlanks(s) == text == sign + digits + rest && sign in {"", "+", "-"} && AllDigits(digits)
    requires digits == "" && sign == "" && rest != "" ==> rest[0] != '+' && rest[0] != '-'
    requires LeadingDigits(digits + rest) == digits
    ensures ParseInt(s) == if digits == "" then None else Some(if sign == "-" then 0 - Value(digits) else Value(digits))
  {
    hide SkipBlanks, LeadingDigits, Value;
    if sign == "" {
      assert text == digits + rest;
      if digits != "" { assert text[0] == digits[0] && IsDigit(digits[0]); }
    } else {
      assert text[0] == sign[0] && text[1..] == digits + rest;
    }
  }

  lemma {:induction false} SkipsBlanks(blanks: string, text: string)
    requires forall i :: 0 <= i < |blanks| ==> IsBlank(blanks[i])
    requires text != "" ==> !IsBlank(text[0])
    ensures SkipBlanks(blanks + text) == text
  {
    if blanks == "" {
      assert blanks + text == text;
    } else {
      SkipsBlanks(blanks[1..], text);
      assert (blanks + text)[1..] == blanks[1..] + text;
    }
  }

  lemma {:induction false} DigitsEnd(digits: string, rest: string)
    requires AllDigits(digits) && (rest != "" ==> !IsDigit(rest[0]))
    ensures LeadingDigits(digits + rest) == digits
  {
    if digits == "" {
      assert digits + rest == rest;
    } else {
      DigitsEnd(digits[1..], rest);
      assert (digits + rest)[1..] == digits[1..] + rest;
      assert [digits[0]] + digits[1..] == digits;
    }
  }

  // ---- reading and writing ----

  predicate AllThere(entries: Entries, key: string, count: nat) {
    forall i :: 0 <= i < count ==> ChunkName(key, i) in entries
  }

  function Assembled(entries: Entries, key: string, count: nat): string
    requires AllThere(entries, key, count)
  {
    if count == 0 then "" else Assembled(entries, key, count - 1) + entries[ChunkName(key, count - 1)]
  }

  /** The first of a reader's two calls, */
  function Found(entries: Entries, key: string): Option<string> {
    if key in entries then Some(entries[key]) else None
  }

  /** and what the second, made only for a manifest, makes of it: every part, or a miss. */
  function Finished(head: Option<string>, entries: Entries, key: string): Option<string> {
    if head.None? then None
    else if !StartsWith(head.value, MARKER) then head
    else
      var count := ParseInt(head.value[|MARKER|..]);
      if count.None? || count.value <= 0 || !AllThere(entries, key, count.value) then None
      else Some(Assembled(entries, key, count.value))
  }

  /** Both calls on the same entries. */
  function Read(entries: Entries, key: string): Option<string> { Finished(Found(entries, key), entries, key) }

  function Chunks(key: string, body: string, n: nat): Entries {
    if n == 0 then map[] else Chunks(key, body, n - 1)[ChunkName(key, n - 1) := Chunk(body, n - 1)]
  }

  /** The chunks first, all at once, */
  function ChunksPut(entries: Entries, key: string, body: string): Entries {
    if Short(body) || !Cacheable(body) then entries else entries + Chunks(key, body, Count(body))
  }

  /** and then the head that names them. */
  function HeadPut(entries: Entries, key: string, body: string): Entries {
    if Cacheable(body) then entries[key := HeadOf(body)] else entries
  }

  function Written(entries: Entries, key: string, body: string): Entries {
    HeadPut(ChunksPut(entries, key, body), key, body)
  }

  class ScriptCache {
    var entries: Entries

    constructor ()
      ensures entries == map[]
    {
      entries := map[];
    }

    method Get(key: string) returns (head: Option<string>)
      ensures head == Found(entries, key)
    {
      head := if key in entries then Some(entries[key]) else None;
    }

    /** What a reader does with the head it got; others may have written since, and
        AStraddlingRead says what it then finds. */
    method FinishRead(key: string, head: Option<string>) returns (body: Option<string>)
      ensures body == Finished(head, entries, key)
      ensures head.None? ==> body.None?
      ensures head.Some? && !("#chunks:" <= head.value) ==> body == head
      ensures head.Some? && "#chunks:" <= head.value ==>
                var count := ParseInt(head.value[8..]);
                body.Some? <==> count.Some? && count.value > 0 &&
                                forall i :: 0 <= i < count.value ==> ChunkName(key, i) in entries
    {
      if head.None? { return None; }
      if !StartsWith(head.value, MARKER) { return head; }
      var count := ParseInt(head.value[|MARKER|..]);
      if count.None? || !(count.value > 0) { return None; }
      var text := "";
      var i := 0;
      while i < count.value
        invariant 0 <= i <= count.value && AllThere(entries, key, i) && text == Assembled(entries, key, i)
      {
        var name := ChunkName(key, i);
        if name !in entries { return None; }
        text := text + entries[name];
        i := i + 1;
      }
      body := Some(text);
    }

    /** A read that nobody comes in the middle of. */
    method ReadCache(key: string) returns (body: Option<string>)
      ensures body == Read(entries, key)
    {
      var head := Get(key);
      body := FinishRead(key, head);
    }

    /** The first of the two writes of a long answer. */
    method StoreChunks(key: string, body: string)
      requires !Short(body) && Cacheable(body)
      modifies this
      ensures entries == ChunksPut(old(entries), key, body)
    {
      var count := (|body| + CHUNK_CHARS - 1) / CHUNK_CHARS;
      var values: Entries := map[];
      for i := 0 to count
        invariant values == Chunks(key, body, i)
      {
        values := values[ChunkName(key, i) := Chunk(body, i)];
      }
      entries := entries + values;
    }

    /** Stores an answer unless it is too long; says whether it did. Other readers may come
        between the two writes: ReadInTheWindow says what they find. */
    method WriteCache(key: string, body: string) returns (stored: bool)
      modifies this
      ensures entries == Written(old(entries), key, body)
      ensures stored <==> Cacheable(body)
      ensures stored <==> |body| <= 200_000
      ensures !stored ==> entries == old(entries)
      ensures |body| <= 25_000 ==> entries == old(entries)[key := body]
    {
      if |body| <= CHUNK_CHARS {
        entries := entries[key := body];
        return true;
      }
      var count := (|body| + CHUNK_CHARS - 1) / CHUNK_CHARS;
      if count > MAX_CHUNKS { return false; }
      StoreChunks(key, body);
      entries := entries[key := MARKER + Decimal(count)];
      return true;
    }

    /** What the cache may do at any time. */
    method Evict(names: set<string>)
      modifies this
      ensures entries == old(entries) - names
    {
      entries := entries - names;
    }
  }

  // ---- names do not clash ----

  lemma NamesAreInjective(a: string, i: nat, b: string, j: nat)
    requires ChunkName(a, i) == ChunkName(b, j)
    ensures a == b && i == j
  {
    var s, x, y := ChunkName(a, i), Decimal(i), Decimal(j);
    assert s[|a|] == ':' && s[|b|] == ':';
    assert forall k :: |a| < k < |s| ==> s[k] == x[k - |a| - 1];
    assert forall k :: |b| < k < |s| ==> s[k] == y[k - |b| - 1];
    assert |a| == |b|;
    assert s[..|a|] == a && s[..|b|] == b;
    assert s[|a| + 1..] == x && s[|b| + 1..] == y;
    DecimalIsInjective(i, j);
  }

  lemma {:induction false} ChunkNames(key: string, body: string, n: nat, name: string)
    ensures name in Chunks(key, body, n) <==> exists i :: 0 <= i < n && name == ChunkName(key, i)
  {
    hide ChunkName, Chunk;
    if n > 0 { ChunkNames(key, body, n - 1, name); }
  }

  lemma {:induction false} ChunkAt(key: string, body: string, n: nat, i: nat)
    requires i < n
    ensures ChunkName(key, i) in Chunks(key, body, n) && Chunks(key, body, n)[ChunkName(key, i)] == Chunk(body, i)
  {
    if i < n - 1 {
      ChunkAt(key, body, n - 1, i);
      if ChunkName(key, i) == ChunkName(key, n - 1) { NamesAreInjective(key, i, key, n - 1); }
      hide ChunkName, Chunk;
    }
  }

  // ---- what the cache holds for one key ----

  /** Whatever survives for a key belongs to the body stored last: its head, and if that is a
      manifest, its chunks. */
  ghost predicate Consistent(entries: Entries, key: string, last: Option<string>) {
    && (last.None? ==> key !in entries)
    && (last.Some? && key in entries ==> entries[key] == HeadOf(last.value))
    && (last.Some? && !Short(last.value) ==> Cacheable(last.value))
    && (last.Some? && !Short(last.value) ==>
          forall i :: 0 <= i < Count(last.value) && ChunkName(key, i) in entries ==>
              entries[ChunkName(key, i)] == Chunk(last.value, i))
  }

  ghost predicate Complete(entries: Entries, key: string, body: string) {
    key in entries && (!Short(body) ==> AllThere(entries, key, Count(body)))
  }

  /** The head of a short answer cannot be taken for a manifest. */
  predicate Safe(body: string) { Short(body) ==> !StartsWith(body, MARKER) }

  lemma {:induction false} AssembledIsPrefix(entries: Entries, key: string, body: string, n: nat)
    requires AllThere(entries, key, n)
    requires forall i :: 0 <= i < n ==> entries[ChunkName(key, i)] == Chunk(body, i)
    ensures Assembled(entries, key, n) == body[..Min(n * CHUNK_CHARS, |body|)]
  {
    if n > 0 {
      AssembledIsPrefix(entries, key, body, n - 1);
      var from, to := Min((n - 1) * CHUNK_CHARS, |body|), Min(n * CHUNK_CHARS, |body|);
      assert body[..from] + body[from..to] == body[..to];
    }
  }

  /** A manifest reads back as its count. */
  lemma ManifestCounts(body: string)
    ensures StartsWith(Manifest(body), MARKER) && ParseInt(Manifest(body)[|MARKER|..]) == Some(Count(body))
  {
    ParseDecimal(Count(body));
    assert Manifest(body)[..|MARKER|] == MARKER;
    assert Manifest(body)[|MARKER|..] == Decimal(Count(body));
  }

  /** A read is a miss or the whole body, never a part or a mix; and it is the body when
      nothing of it is missing. */
  lemma ReadsAllOrNothing(entries: Entries, key: string, body: string)
    requires Consistent(entries, key, Some(body)) && Safe(body)
    ensures Read(entries, key) == None || Read(entries, key) == Some(body)
    ensures Complete(entries, key, body) ==> Read(entries, key) == Some(body)
  {
    if key in entries && !Short(body) {
      var count := Count(body);
      assert count * CHUNK_CHARS >= |body|;
      ManifestCounts(body);
      if AllThere(entries, key, count) {
        AssembledIsPrefix(entries, key, body, count);
        assert body[..|body|] == body;
      }
    }
  }

  // ---- between the two writes ----

  /** What survives while body is being stored over last: the head is still the last one's, and
      a chunk is the new body's as far as that goes. */
  ghost predicate Windowed(entries: Entries, key: string, last: string, body: string) {
    && Cacheable(last) && Cacheable(body) && !Short(body)
    && (key in entries ==> entries[key] == HeadOf(last))
    && forall i: nat :: ChunkName(key, i) in entries ==>
         && (i < Count(body) ==> entries[ChunkName(key, i)] == Chunk(body, i))
         && (!Short(last) && Count(body) <= i < Count(last) ==> entries[ChunkName(key, i)] == Chunk(last, i))
  }

  /** As many chunks as the last body had, the new body's first. */
  function Mix(last: string, body: string): string {
    if Short(last) then last
    else if Count(last) <= Count(body) then body[..Min(Count(last) * CHUNK_CHARS, |body|)]
    else body + last[Count(body) * CHUNK_CHARS..]
  }

  /** The chunks of one are all and only the first chunks of the other. */
  predicate Continues(a: string, b: string) { a <= b && |a| == Count(a) * CHUNK_CHARS }

  lemma TheWindowOpens(entries: Entries, key: string, last: string, body: string)
    requires Consistent(entries, key, Some(last)) && Cacheable(last) && Cacheable(body) && !Short(body)
    ensures Windowed(ChunksPut(entries, key, body), key, last, body)
    ensures Complete(entries, key, last) ==> Complete(ChunksPut(entries, key, body), key, last)
  {
    var put := ChunksPut(entries, key, body);
    forall i: nat
      ensures i < Count(body) ==> ChunkName(key, i) in put && put[ChunkName(key, i)] == Chunk(body, i)
      ensures i >= Count(body) ==> (ChunkName(key, i) in put <==> ChunkName(key, i) in entries)
      ensures i >= Count(body) && ChunkName(key, i) in put ==> put[ChunkName(key, i)] == entries[ChunkName(key, i)]
    {
      ChunkNames(key, body, Count(body), ChunkName(key, i));
      if i < Count(body) {
        ChunkAt(key, body, Count(body), i);
      } else if ChunkName(key, i) in Chunks(key, body, Count(body)) {
        var j :| 0 <= j < Count(body) && ChunkName(key, i) == ChunkName(key, j);
        NamesAreInjective(key, i, key, j);
      }
    }
    ChunkNames(key, body, Count(body), key);
    assert key !in Chunks(key, body, Count(body)) by {
      assert forall i: nat :: |ChunkName(key, i)| > |key|;
    }
    hide ChunkName, Chunk, Chunks, ChunksPut, HeadOf, Count;
  }

  /** Losing entries in the window leaves it one. */
  lemma TheWindowStays(entries: Entries, key: string, last: string, body: string, names: set<string>)
    requires Windowed(entries, key, last, body)
    ensures Windowed(entries - names, key, last, body)
  {
    hide ChunkName, Chunk, HeadOf;
  }

  lemma AssembledStart(entries: Entries, key: string, last: string, body: string, n: nat)
    requires Windowed(entries, key, last, body) && n <= Count(body) && AllThere(entries, key, n)
    ensures Assembled(entries, key, n) == body[..Min(n * CHUNK_CHARS, |body|)]
  {
    hide ChunkName, Chunk, HeadOf;
    assert forall i :: 0 <= i < n ==> ChunkName(key, i) in entries;
    AssembledIsPrefix(entries, key, body, n);
  }

  lemma NextChunk(entries: Entries, key: string, last: string, body: string, n: nat)
    requires Windowed(entries, key, last, body) && !Short(last) && AllThere(entries, key, n)
    requires Count(body) < n <= Count(last)
    ensures Assembled(entries, key, n) == Assembled(entries, key, n - 1) + Chunk(last, n - 1)
  {
    hide ChunkName, Chunk, HeadOf;
    assert ChunkName(key, n - 1) in entries;
  }

  lemma {:induction false} AssembledEnd(entries: Entries, key: string, last: string, body: string, n: nat)
    requires Windowed(entries, key, last, body) && !Short(last) && AllThere(entries, key, n)
    requires Count(body) <= n <= Count(last)
    ensures Assembled(entries, key, n) == body + Stretch(last, Count(body), n)
  {
    if n == Count(body) {
      AssembledAll(entries, key, last, body);
    } else {
      NextChunk(entries, key, last, body, n);
      StretchGrows(last, Count(body), n);
      hide AllThere, ChunkName, Chunk, HeadOf, Count, Stretch, Assembled, Short;
      AssembledEnd(entries, key, last, body, n - 1);
      hide Windowed;
      Associates(body, Stretch(last, Count(body), n - 1), Chunk(last, n - 1));
    }
  }

  lemma AssembledAll(entries: Entries, key: string, last: string, body: string)
    requires Windowed(entries, key, last, body) && AllThere(entries, key, Count(body))
    ensures Assembled(entries, key, Count(body)) == body + Stretch(last, Count(body), Count(body))
  {
    AssembledStart(entries, key, last, body, Count(body));
    StretchIsAll(body);
    hide Windowed, AllThere, ChunkName, Assembled;
    assert body[..|body|] == body;
  }

  /** A reader between the two writes finds nothing or that mix, */
  lemma ReadInTheWindow(entries: Entries, key: string, last: string, body: string)
    requires Windowed(entries, key, last, body) && Safe(last)
    ensures Read(entries, key) == None || Read(entries, key) == Some(Mix(last, body))
    ensures Complete(entries, key, last) ==> Read(entries, key) == Some(Mix(last, body))
  {
    if key in entries && !Short(last) {
      ManifestCounts(last);
      if AllThere(entries, key, Count(last)) {
        hide Windowed, HeadOf, Chunk, ChunkName, Manifest;
        if Count(last) <= Count(body) { AssembledStart(entries, key, last, body, Count(last)); }
        else {
          AssembledEnd(entries, key, last, body, Count(last));
          StretchToTheEnd(last, Count(body));
        }
      }
    }
  }

  /** which is neither body exactly when both are long, their chunks differ in number, and
      neither goes on where the other ends. */
  lemma MixedExactlyWhen(last: string, body: string)
    requires Cacheable(last) && Cacheable(body) && !Short(body)
    ensures Mix(last, body) != last && Mix(last, body) != body <==>
              !Short(last) && Count(last) != Count(body) && !Continues(last, body) && !Continues(body, last)
  {
    var mix, n, m := Mix(last, body), Count(last), Count(body);
    if !Short(last) {
      if n < m {
        assert n * CHUNK_CHARS < |body| && |mix| == n * CHUNK_CHARS;
        assert !Continues(body, last);
        if mix == last { assert last <= body; }
        if Continues(last, body) { assert mix == last; }
      } else if n > m {
        assert m * CHUNK_CHARS < |last| && |mix| > |body|;
        assert !Continues(last, body);
        if mix == last { assert mix[..|body|] == body; }
        if Continues(body, last) { assert last[..|body|] + last[|body|..] == last; }
      } else {
        assert body[..|body|] == body;
      }
    }
  }

  // ---- runs ----

  datatype Op = Write(key: string, body: string) | Evict(names: set<string>)

  function After(ops: seq<Op>): Entries {
    if ops == [] then map[]
    else
      var entries := After(ops[..|ops| - 1]);
      match ops[|ops| - 1]
      case Write(key, body) => Written(entries, key, body)
      case Evict(names) => entries - names
  }

  /** The body most recently stored under a key; one that was too long was not stored. */
  function LastStored(ops: seq<Op>, key: string): Option<string> {
    if ops == [] then None
    else
      var op := ops[|ops| - 1];
      if op.Write? && op.key == key && Cacheable(op.body) then Some(op.body) else LastStored(ops[..|ops| - 1], key)
  }

  /** Keys that are not each other's chunk names, as keys of one length never are. */
  ghost predicate Apart(a: string, b: string) {
    forall i: nat :: ChunkName(a, i) != b && ChunkName(b, i) != a
  }

  lemma SameLengthIsApart(a: string, b: string)
    requires |a| == |b|
    ensures Apart(a, b)
  {
    forall i: nat
      ensures ChunkName(a, i) != b && ChunkName(b, i) != a
    {
      assert |ChunkName(a, i)| > |a| && |ChunkName(b, i)| > |b|;
    }
  }

  ghost predicate AllApart(ops: seq<Op>, key: string) {
    forall i :: 0 <= i < |ops| && ops[i].Write? ==> Apart(ops[i].key, key)
  }

  /** Writing under another key leaves this key's entries alone. */
  lemma OtherKeysStay(entries: Entries, key: string, body: string, name: string)
    requires name != key && (forall i: nat :: ChunkName(key, i) != name)
    ensures name in Written(entries, key, body) <==> name in entries
    ensures name in entries ==> Written(entries, key, body)[name] == entries[name]
  {
    ChunkNames(key, body, Count(body), name);
  }

  lemma WriteKeepsOthers(entries: Entries, other: string, body: string, key: string, last: Option<string>)
    requires Consistent(entries, key, last) && other != key && Apart(other, key)
    ensures Consistent(Written(entries, other, body), key, last)
    ensures last.Some? && Complete(entries, key, last.value) ==>
              Complete(Written(entries, other, body), key, last.value)
  {
    OtherKeysStay(entries, other, body, key);
    forall i: nat
      ensures ChunkName(key, i) in Written(entries, other, body) <==> ChunkName(key, i) in entries
      ensures ChunkName(key, i) in entries ==>
                Written(entries, other, body)[ChunkName(key, i)] == entries[ChunkName(key, i)]
    {
      forall j: nat ensures ChunkName(other, j) != ChunkName(key, i) {
        if ChunkName(other, j) == ChunkName(key, i) { NamesAreInjective(other, j, key, i); }
      }
      OtherKeysStay(entries, other, body, ChunkName(key, i));
    }
    hide Written, ChunkName, Chunk;
  }

  lemma WriteStores(entries: Entries, key: string, body: string)
    requires Cacheable(body)
    ensures Consistent(Written(entries, key, body), key, Some(body)) && Complete(Written(entries, key, body), key, body)
  {
    if !Short(body) {
      var n := Count(body);
      forall i | 0 <= i < n
        ensures ChunkName(key, i) in Written(entries, key, body) &&
                  Written(entries, key, body)[ChunkName(key, i)] == Chunk(body, i)
      {
        ChunkAt(key, body, n, i);
        assert |ChunkName(key, i)| > |key|;
      }
      hide ChunkName, Chunk, Chunks, Manifest;
    }
  }

  lemma {:induction false} RunIsConsistent(ops: seq<Op>, key: string)
    requires AllApart(ops, key)
    ensures Consistent(After(ops), key, LastStored(ops, key))
    ensures (forall i :: 0 <= i < |ops| ==> ops[i].Write?) && LastStored(ops, key).Some? ==>
              Complete(After(ops), key, LastStored(ops, key).value)
  {
    if ops != [] {
      var front, op := ops[..|ops| - 1], ops[|ops| - 1];
      RunIsConsistent(front, key);
      if op.Write? {
        if op.key != key { WriteKeepsOthers(After(front), op.key, op.body, key, LastStored(front, key)); }
        else if Cacheable(op.body) { WriteStores(After(front), key, op.body); }
        else { TooLongIsNotShort(op.body); }
        hide Consistent, Complete, Written;
      }
    }
  }

  lemma TooLongIsNotShort(body: string)
    requires !Cacheable(body)
    ensures !Short(body)
  {}

  /** Over any run of writes and evictions, a hit is the body most recently stored under the key,
      whatever longer or shorter ones were stored before it; without evictions it is always a hit. */
  lemma HitsAreTheLastBody(ops: seq<Op>, key: string)
    requires AllApart(ops, key)
    requires LastStored(ops, key).Some? ==> Safe(LastStored(ops, key).value)
    ensures Read(After(ops), key) == None || Read(After(ops), key) == LastStored(ops, key)
    ensures (forall i :: 0 <= i < |ops| ==> ops[i].Write?) ==> Read(After(ops), key) == LastStored(ops, key)
  {
    RunIsConsistent(ops, key);
    if LastStored(ops, key).Some? { ReadsAllOrNothing(After(ops), key, LastStored(ops, key).value); }
  }

  /** A shorter answer is being stored over a longer one, and a reader in between gets a hit that
      is neither. */
  lemma AReaderCanFindAMix(key: string)
    ensures exists last: string, body: string ::
              && Cacheable(last) && Cacheable(body)
              && var entries := ChunksPut(Written(map[], key, last), key, body);
                 Read(entries, key).Some? && Read(entries, key).value != last && Read(entries, key).value != body
  {
    var last, body := seq(2 * CHUNK_CHARS + 1, _ => 'a'), seq(CHUNK_CHARS + 1, _ => 'b');
    assert Count(last) == 3 && Count(body) == 2;
    assert body[0] != last[0];
    WriteStores(map[], key, last);
    TheWindowOpens(Written(map[], key, last), key, last, body);
    ReadInTheWindow(ChunksPut(Written(map[], key, last), key, body), key, last, body);
    MixedExactlyWhen(last, body);
  }

  /** In a cache with nothing else in it, a stored body reads back exactly when it is long or
      does not start like a manifest. */
  lemma ReadsBackExactlyWhen(key: string, body: string)
    requires Cacheable(body)
    ensures Read(Written(map[], key, body), key) == Some(body) <==> Safe(body)
  {
    WriteStores(map[], key, body);
    if Safe(body) {
      ReadsAllOrNothing(Written(map[], key, body), key, body);
    } else {
      assert Written(map[], key, body) == map[key := body];
      assert ChunkName(key, 0) != key by { assert |ChunkName(key, 0)| > |key|; }
    }
  }

  // ---- reads that writes come in the middle of ----

  /** Every call a writer makes is a step, and so is every loss. */
  datatype Step = PutAll(key: string, body: string) | PutHead(key: string, body: string) | Lose(names: set<string>)

  function Stepped(entries: Entries, step: Step): Entries {
    match step
    case PutAll(key, body) => ChunksPut(entries, key, body)
    case PutHead(key, body) => HeadPut(entries, key, body)
    case Lose(names) => entries - names
  }

  function Ran(steps: seq<Step>): Entries {
    if steps == [] then map[] else Stepped(Ran(steps[..|steps| - 1]), steps[|steps| - 1])
  }

  /** The long bodies whose chunks were put under a key, oldest first. */
  function Puts(steps: seq<Step>, key: string): seq<string> {
    if steps == [] then []
    else
      var front, step := Puts(steps[..|steps| - 1], key), steps[|steps| - 1];
      if step.PutAll? && step.key == key && !Short(step.body) && Cacheable(step.body)
      then front + [step.body] else front
  }

  /** The body whose head was put under a key last. */
  function LastHead(steps: seq<Step>, key: string): Option<string> {
    if steps == [] then None
    else
      var step := steps[|steps| - 1];
      if step.PutHead? && step.key == key && Cacheable(step.body) then Some(step.body)
      else LastHead(steps[..|steps| - 1], key)
  }

  ghost predicate KeysApart(steps: seq<Step>, key: string) {
    forall i :: 0 <= i < |steps| && !steps[i].Lose? ==> Apart(steps[i].key, key)
  }

  /** A writer puts the head of a long body after its chunks, whatever others do in between. */
  ghost predicate ChunksFirst(steps: seq<Step>, key: string) {
    forall i :: 0 <= i < |steps| && steps[i].PutHead? && steps[i].key == key && !Short(steps[i].body) ==>
      exists j :: 0 <= j < i && steps[j] == PutAll(key, steps[i].body)
  }

  /** The last body put that has an i-th chunk. */
  function LastWith(puts: seq<string>, i: nat): Option<string> {
    if puts == [] then None
    else if i < Count(puts[|puts| - 1]) then Some(puts[|puts| - 1])
    else LastWith(puts[..|puts| - 1], i)
  }

  function Part(puts: seq<string>, i: nat): string {
    var last := LastWith(puts, i);
    if last.Some? then Chunk(last.value, i) else ""
  }

  /** The chunks from one index up to another, each of the last body put that has it. */
  function Weave(puts: seq<string>, from: nat, n: nat): string {
    if n <= from then "" else Weave(puts, from, n - 1) + Part(puts, n - 1)
  }

  ghost predicate Covered(puts: seq<string>, n: nat) { forall i :: 0 <= i < n ==> LastWith(puts, i).Some? }

  lemma HeadAfterStep(entries: Entries, step: Step, key: string)
    requires !step.Lose? ==> Apart(step.key, key)
    requires !(step.PutHead? && step.key == key && Cacheable(step.body))
    ensures key in Stepped(entries, step) ==> key in entries && Stepped(entries, step)[key] == entries[key]
    ensures key in entries && !step.Lose? ==> key in Stepped(entries, step)
  {
    if step.PutAll? { ChunkNames(step.key, step.body, Count(step.body), key); }
  }

  lemma {:induction false} HeadIsTheLast(steps: seq<Step>, key: string)
    requires KeysApart(steps, key)
    ensures key in Ran(steps) ==> LastHead(steps, key).Some? && Ran(steps)[key] == HeadOf(LastHead(steps, key).value)
    ensures LastHead(steps, key).Some? && (forall i :: 0 <= i < |steps| ==> !steps[i].Lose?) ==> key in Ran(steps)
  {
    if steps != [] {
      var front, step := steps[..|steps| - 1], steps[|steps| - 1];
      HeadIsTheLast(front, key);
      if !(step.PutHead? && step.key == key && Cacheable(step.body)) { HeadAfterStep(Ran(front), step, key); }
      hide HeadOf;
    }
  }

  /** What one step does to one chunk of a key. */
  lemma ChunkAfterStep(entries: Entries, step: Step, key: string, i: nat)
    requires !step.Lose? ==> Apart(step.key, key)
    ensures var name, put := ChunkName(key, i), Stepped(entries, step);
            if step.PutAll? && step.key == key && !Short(step.body) && Cacheable(step.body) && i < Count(step.body)
            then name in put && put[name] == Chunk(step.body, i)
            else
              && (name in put ==> name in entries && put[name] == entries[name])
              && (name in entries && !step.Lose? ==> name in put)
  {
    var name := ChunkName(key, i);
    if step.PutAll? {
      var n := Count(step.body);
      ChunkNames(step.key, step.body, n, name);
      if step.key == key && i < n { ChunkAt(key, step.body, n, i); }
      if name in Chunks(step.key, step.body, n) {
        var j :| 0 <= j < n && name == ChunkName(step.key, j);
        NamesAreInjective(key, i, step.key, j);
      }
      hide ChunkName, Chunk;
    }
  }

  lemma {:induction false} ChunkIsTheLast(steps: seq<Step>, key: string, i: nat)
    requires KeysApart(steps, key)
    ensures var name, last := ChunkName(key, i), LastWith(Puts(steps, key), i);
            && (name in Ran(steps) ==> last.Some? && Ran(steps)[name] == Chunk(last.value, i))
            && (last.Some? && (forall k :: 0 <= k < |steps| ==> !steps[k].Lose?) ==> name in Ran(steps))
  {
    if steps != [] {
      var front, step := steps[..|steps| - 1], steps[|steps| - 1];
      ChunkIsTheLast(front, key, i);
      ChunkAfterStep(Ran(front), step, key, i);
      hide ChunkName, Chunk, Count, Stepped;
      if step.PutAll? && step.key == key && !Short(step.body) && Cacheable(step.body) {
        assert Puts(steps, key)[..|Puts(front, key)|] == Puts(front, key);
      }
    }
  }

  lemma AssembledNext(entries: Entries, key: string, n: nat)
    requires n > 0 && AllThere(entries, key, n)
    ensures AllThere(entries, key, n - 1) && ChunkName(key, n - 1) in entries
    ensures Assembled(entries, key, n) == Assembled(entries, key, n - 1) + entries[ChunkName(key, n - 1)]
  {
    hide ChunkName;
  }

  lemma {:induction false} AssembledIsWoven(steps: seq<Step>, key: string, n: nat)
    requires KeysApart(steps, key) && AllThere(Ran(steps), key, n)
    ensures Assembled(Ran(steps), key, n) == Weave(Puts(steps, key), 0, n) && Covered(Puts(steps, key), n)
  {
    hide Chunk, LastWith, Puts, Ran, KeysApart;
    if n > 0 {
      hide Weave, Assembled;
      AssembledNext(Ran(steps), key, n);
      ChunkIsTheLast(steps, key, n - 1);
      WeaveNext(Puts(steps, key), 0, n);
      AssembledIsWoven(steps, key, n - 1);
      hide ChunkName;
    }
  }

  /** What a reader finds that gets the head after h steps and the chunks after c. */
  function Straddled(steps: seq<Step>, h: nat, c: nat, key: string): Option<string>
    requires h <= c <= |steps|
  {
    Finished(Found(Ran(steps[..h]), key), Ran(steps[..c]), key)
  }

  /** Whatever is written, by however many writers, and whatever is lost: a reader finds nothing;
      or the short body whose head it got; or, of a long one, as many chunks as that one has, each
      of the last body put by then that has such a chunk. */
  lemma AStraddlingRead(steps: seq<Step>, h: nat, c: nat, key: string)
    requires h <= c <= |steps| && KeysApart(steps, key)
    requires LastHead(steps[..h], key).Some? ==> Safe(LastHead(steps[..h], key).value)
    ensures var read, last := Straddled(steps, h, c, key), LastHead(steps[..h], key);
            read.Some? ==>
              && last.Some?
              && if Short(last.value) then read.value == last.value
                 else
                   && read.value == Weave(Puts(steps[..c], key), 0, Count(last.value))
                   && Covered(Puts(steps[..c], key), Count(last.value))
  {
    var last := LastHead(steps[..h], key);
    HeadIsTheLast(steps[..h], key);
    if Found(Ran(steps[..h]), key).Some? && !Short(last.value) {
      ManifestCounts(last.value);
      if AllThere(Ran(steps[..c]), key, Count(last.value)) { AssembledIsWoven(steps[..c], key, Count(last.value)); }
    }
  }

  /** And if nothing is lost it finds something, once a head has been put. */
  lemma WithoutLossAReadHits(steps: seq<Step>, h: nat, c: nat, key: string)
    requires h <= c <= |steps| && KeysApart(steps, key) && ChunksFirst(steps, key)
    requires LastHead(steps[..h], key).Some? && Safe(LastHead(steps[..h], key).value)
    requires forall i :: 0 <= i < c ==> !steps[i].Lose?
    ensures Straddled(steps, h, c, key).Some?
  {
    var last := LastHead(steps[..h], key).value;
    HeadIsTheLast(steps[..h], key);
    var i := HeadWasPut(steps[..h], key);
    if !Short(last) {
      ManifestCounts(last);
      var j :| 0 <= j < i && steps[j] == PutAll(key, last);
      forall k | 0 <= k < Count(last)
        ensures ChunkName(key, k) in Ran(steps[..c])
      {
        PutsCover(steps[..c], key, j, k);
        ChunkIsTheLast(steps[..c], key, k);
      }
    }
  }

  lemma {:induction false} HeadWasPut(steps: seq<Step>, key: string) returns (i: nat)
    requires LastHead(steps, key).Some?
    ensures i < |steps| && steps[i] == PutHead(key, LastHead(steps, key).value) && Cacheable(steps[i].body)
  {
    i := |steps| - 1;
    if !(steps[i].PutHead? && steps[i].key == key && Cacheable(steps[i].body)) {
      i := HeadWasPut(steps[..|steps| - 1], key);
    }
  }

  lemma {:induction false} PutsCover(steps: seq<Step>, key: string, j: nat, k: nat)
    requires j < |steps| && steps[j].PutAll? && steps[j].key == key
    requires !Short(steps[j].body) && Cacheable(steps[j].body) && k < Count(steps[j].body)
    ensures LastWith(Puts(steps, key), k).Some?
  {
    var front := steps[..|steps| - 1];
    if j < |front| {
      PutsCover(front, key, j, k);
      assert |Puts(steps, key)| > |Puts(front, key)| ==> Puts(steps, key)[..|Puts(front, key)|] == Puts(front, key);
    }
  }

  // ---- when such a hit is no body ----

  lemma WeaveNext(puts: seq<string>, from: nat, n: nat)
    requires from < n
    ensures Weave(puts, from, n) == Weave(puts, from, n - 1) + Part(puts, n - 1)
  {}

  lemma PartOfTheLast(puts: seq<string>, i: nat)
    requires puts != []
    ensures Part(puts, i) ==
            if i < Count(puts[|puts| - 1]) then Chunk(puts[|puts| - 1], i) else Part(puts[..|puts| - 1], i)
  {}

  lemma {:induction false} WeaveOfTheLast(puts: seq<string>, n: nat)
    requires puts != [] && n <= Count(puts[|puts| - 1])
    ensures Weave(puts, 0, n) == Stretch(puts[|puts| - 1], 0, n)
  {
    if n > 0 {
      hide Weave, Part, Count, LastWith, Chunk, Stretch;
      WeaveOfTheLast(puts, n - 1);
      WeaveNext(puts, 0, n);
      PartOfTheLast(puts, n - 1);
      StretchGrows(puts[|puts| - 1], 0, n);
    }
  }

  lemma {:induction false} WeaveBeyondTheLast(puts: seq<string>, n: nat)
    requires puts != [] && n >= Count(puts[|puts| - 1])
    ensures Weave(puts, 0, n) == puts[|puts| - 1] + Weave(puts[..|puts| - 1], Count(puts[|puts| - 1]), n)
  {
    var last, beneath := puts[|puts| - 1], puts[..|puts| - 1];
    var m := Count(last);
    if n == m {
      WeaveOfTheLast(puts, n);
      StretchIsAll(last);
      hide Stretch;
    } else {
      hide Weave, Part, Count, LastWith, Chunk, Stretch;
      WeaveBeyondTheLast(puts, n - 1);
      WeaveNext(puts, 0, n);
      WeaveNext(beneath, m, n);
      PartOfTheLast(puts, n - 1);
      Associates(last, Weave(beneath, m, n - 1), Part(beneath, n - 1));
    }
  }

  /** The weave that a long body's manifest asks for is neither that body nor the last one put
      exactly when the two differ in their number of chunks, the last does not go on where the
      body ends, and the body is not the last one followed by the chunks left beneath it. */
  lemma WovenExactlyWhen(puts: seq<string>, body: string)
    requires puts != [] && !Short(body) && Covered(puts, Count(body))
    ensures var last, woven := puts[|puts| - 1], Weave(puts, 0, Count(body));
            woven != body && woven != last <==>
              && Count(last) != Count(body) && !Continues(body, last)
              && body != last + Weave(puts[..|puts| - 1], Count(last), Count(body))
  {
    var last, n, m := puts[|puts| - 1], Count(body), Count(puts[|puts| - 1]);
    if n <= m {
      WeaveOfTheLast(puts, n);
      StretchIsAll(last);
      if n < m { CutShort(last, body); }
    } else {
      WeaveBeyondTheLast(puts, n);
      var beneath := puts[..|puts| - 1];
      assert LastWith(puts, m).Some? && LastWith(puts, m) == LastWith(beneath, m);
      WeaveIsSomething(beneath, m, n);
      NoContinuation(body, last);
      hide Count, LastWith, Weave, Continues;
    }
  }

  /** Fewer chunks of a body than it has are the other body exactly when it goes on where that ends. */
  lemma CutShort(last: string, body: string)
    requires Count(body) < Count(last)
    ensures Stretch(last, 0, Count(body)) != last
    ensures Stretch(last, 0, Count(body)) == body <==> Continues(body, last)
    ensures body != last
  {
    CountMeans(last, Count(last));
    assert Count(body) * CHUNK_CHARS < |last|;
  }

  lemma NoContinuation(body: string, last: string)
    requires Count(last) < Count(body)
    ensures !Continues(body, last)
  {}

  lemma {:induction false} WeaveIsSomething(puts: seq<string>, from: nat, n: nat)
    requires from < n && LastWith(puts, from).Some?
    ensures Weave(puts, from, n) != ""
  {
    if n == from + 1 { PartIsSomething(puts, from); } else { WeaveIsSomething(puts, from, n - 1); }
  }

  lemma {:induction false} PartIsSomething(puts: seq<string>, i: nat)
    requires LastWith(puts, i).Some?
    ensures i < Count(LastWith(puts, i).value) && Part(puts, i) != ""
  {
    if i >= Count(puts[|puts| - 1]) { PartIsSomething(puts[..|puts| - 1], i); }
  }

  /** Where what lies beneath is the body's own, that is: neither goes on where the other ends. */
  lemma BeneathIsItsOwn(beneath: seq<string>, last: string, body: string)
    requires Count(last) < Count(body)
    requires forall i :: Count(last) <= i < Count(body) ==> LastWith(beneath, i) == Some(body)
    ensures body == last + Weave(beneath, Count(last), Count(body)) <==> Continues(last, body)
  {
    hide Weave, LastWith, Stretch, Count;
    WeaveOfOne(beneath, body, Count(last), Count(body));
    StretchToTheEnd(body, Count(last));
    SplitsAt(body, last, Count(last) * CHUNK_CHARS);
  }

  lemma SplitsAt(body: string, front: string, at: nat)
    requires at <= |body|
    ensures body == front + body[at..] <==> front <= body && |front| == at
  {
    assert body[..at] + body[at..] == body;
    if body == front + body[at..] { assert |front| == at; }
  }

  lemma CountMeans(body: string, n: nat)
    requires n <= Count(body)
    ensures n > 0 ==> (n - 1) * CHUNK_CHARS < |body|
    ensures |body| <= Count(body) * CHUNK_CHARS
  {}

  lemma {:induction false} WeaveOfOne(puts: seq<string>, body: string, from: nat, n: nat)
    requires from <= n && forall i :: from <= i < n ==> LastWith(puts, i) == Some(body)
    ensures Weave(puts, from, n) == Stretch(body, from, n)
  {
    if n > from {
      WeaveNext(puts, from, n);
      StretchGrows(body, from, n);
      assert Part(puts, n - 1) == Chunk(body, n - 1);
      hide Weave, Part, LastWith, Chunk, Stretch;
      WeaveOfOne(puts, body, from, n - 1);
    }
  }

  lemma WovenMeans(puts: seq<string>, body: string)
    requires puts != [] && !Short(body) && Covered(puts, Count(body))
    ensures var last, woven := puts[|puts| - 1], Weave(puts, 0, Count(body));
            && (woven != body && woven != last <==>
                  && Count(last) != Count(body) && !Continues(body, last)
                  && body != last + Weave(puts[..|puts| - 1], Count(last), Count(body)))
            && (body == last ==> woven == body)
  {
    WovenExactlyWhen(puts, body);
    hide Covered, Continues, LastWith;
    if body == puts[|puts| - 1] {
      WeaveOfTheLast(puts, Count(body));
      StretchIsAll(body);
    }
  }

  /** So over any run, a hit is neither the body whose head was found nor the last one put exactly
      when the head is a long body's and the two compare like that. In particular a hit is the
      head's body if that is also the last one put. */
  lemma HitsAreNoBodyExactlyWhen(steps: seq<Step>, h: nat, c: nat, key: string)
    requires h <= c <= |steps| && KeysApart(steps, key)
    requires LastHead(steps[..h], key).Some? && Safe(LastHead(steps[..h], key).value)
    requires Puts(steps[..c], key) != [] && Straddled(steps, h, c, key).Some?
    ensures var hit, body := Straddled(steps, h, c, key).value, LastHead(steps[..h], key).value;
            var puts := Puts(steps[..c], key);
            var last := puts[|puts| - 1];
            && (hit != body && hit != last <==>
                  && !Short(body) && Count(last) != Count(body) && !Continues(body, last)
                  && body != last + Weave(puts[..|puts| - 1], Count(last), Count(body)))
            && (Short(body) || body == last ==> hit == body)
  {
    hide Weave, Stretch, Continues, Count, LastWith, Straddled, Covered, Short, Puts, LastHead, KeysApart, Safe;
    AStraddlingRead(steps, h, c, key);
    var body, puts := LastHead(steps[..h], key).value, Puts(steps[..c], key);
    if !Short(body) { WovenMeans(puts, body); }
  }

  /** One body stored whole after another. */
  function Twice(key: string, first: string, second: string): seq<Step> {
    [PutAll(key, first), PutHead(key, first), PutAll(key, second), PutHead(key, second)]
  }

  lemma TwiceRuns(key: string, first: string, second: string)
    requires !Short(first) && Cacheable(first) && !Short(second) && Cacheable(second)
    ensures KeysApart(Twice(key, first, second), key) && ChunksFirst(Twice(key, first, second), key)
    ensures LastHead(Twice(key, first, second)[..2], key) == Some(first)
    ensures Puts(Twice(key, first, second)[..4], key) == [first, second]
  {
    var steps := Twice(key, first, second);
    SameLengthIsApart(key, key);
    hide Count;
    PutsNext(steps, 0, key);
    PutsNext(steps, 1, key);
    PutsNext(steps, 2, key);
    PutsNext(steps, 3, key);
    assert steps[..2][..1] == steps[..1];
    assert steps[0] == PutAll(key, steps[1].body) && steps[2] == PutAll(key, steps[3].body);
  }

  lemma PutsNext(steps: seq<Step>, n: nat, key: string)
    requires n < |steps|
    ensures steps[..0] == []
    ensures Puts(steps[..n + 1], key) == Puts(steps[..n], key) +
              if steps[n].PutAll? && steps[n].key == key && !Short(steps[n].body) && Cacheable(steps[n].body)
              then [steps[n].body] else []
  {
    assert steps[..n + 1][..n] == steps[..n];
  }

  /** A reader that gets the head before a second body is stored, and the chunks after, finds a
      mix of two, or a part of the second, though no read falls between the writes of any body. */
  lemma AStraddlingReaderFindsAMix(key: string, first: string, second: string)
    requires !Short(first) && Cacheable(first) && !Short(second) && Cacheable(second)
    requires first[0] != second[0] && Count(first) != Count(second)
    ensures var read := Straddled(Twice(key, first, second), 2, 4, key);
            read.Some? && read.value != first && read.value != second
  {
    TwiceRuns(key, first, second);
    WithoutLossAReadHits(Twice(key, first, second), 2, 4, key);
    HitsAreNoBodyExactlyWhen(Twice(key, first, second), 2, 4, key);
  }
}
