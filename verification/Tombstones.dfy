/**
 The names of deletion markers, and the directory scan that reads account ids back from them.
 */
module Tombstones {
  import opened Common
  import opened Decimals

  const PREFIX := "account-"
  const SUFFIX := ".deleted"
  const WIDTH: nat := 6
  const MAX_INT64: int := 0x7FFF_FFFF_FFFF_FFFF

  // ---- padded numbers ----

  function Zeros(n: nat): (s: string)
    ensures |s| == n && AllDigits(s)
  {
    seq(n, i => '0')
  }

  lemma {:induction false} PaddingAddsNothing(n: nat, s: string)
    requires AllDigits(s)
    ensures AllDigits(Zeros(n) + s) && Value(Zeros(n) + s) == Value(s)
  {
    var padded := Zeros(n) + s;
    if s != "" {
      var front := s[..|s| - 1];
      PaddingAddsNothing(n, front);
      assert padded[..|padded| - 1] == Zeros(n) + front;
    } else if n > 0 {
      PaddingAddsNothing(n - 1, "");
      assert padded[..|padded| - 1] == Zeros(n - 1) + "";
    }
  }

  /** Padded with zeros to six digits; longer numbers are written in full. */
  function Padded(n: nat): (s: string)
    ensures |s| > 0 && AllDigits(s)
  {
    var digits := Decimal(n);
    if |digits| < WIDTH then Zeros(WIDTH - |digits|) + digits else digits
  }

  /** Base ten, an optional sign, at least one digit, and the range of 64 bits. */
  function ParseInt(s: string): Option<int> {
    var signed := |s| > 0 && (s[0] == '+' || s[0] == '-');
    var digits := if signed then s[1..] else s;
    if digits == "" || !AllDigits(digits) then None
    else
      var n: int := if signed && s[0] == '-' then 0 - Value(digits) else Value(digits);
      if -MAX_INT64 - 1 <= n <= MAX_INT64 then Some(n) else None
  }

  // ---- file names ----

  function TombstoneName(id: nat): string { PREFIX + Padded(id) + SUFFIX }

  /** The advisory lock file that sits beside it. */
  function LockName(id: nat): string { PREFIX + Padded(id) + ".lock" }

  predicate EndsWith(s: string, suffix: string) { |suffix| <= |s| && s[|s| - |suffix|..] == suffix }

  /** The prefix and the suffix never overlap, so what is between them can always be cut out. */
  lemma NoOverlap(name: string)
    requires StartsWith(name, PREFIX) && EndsWith(name, SUFFIX)
    ensures |name| >= |PREFIX| + |SUFFIX|
    ensures name == PREFIX + name[|PREFIX|..|name| - |SUFFIX|] + SUFFIX
  {
    var at := |name| - |SUFFIX|;
    assert name[at..][0] == name[at] == '.';
    assert forall k :: 0 <= k < |PREFIX| ==> name[k] == PREFIX[k];
    if at < |PREFIX| {
      assert false;
    }
    assert name == name[..|PREFIX|] + name[|PREFIX|..at] + name[at..];
  }

  /** The account a directory entry marks as deleted. */
  function MarkedBy(name: string): Option<int> {
    if !StartsWith(name, PREFIX) || !EndsWith(name, SUFFIX) then None
    else
      NoOverlap(name);
      var id := ParseInt(name[|PREFIX|..|name| - |SUFFIX|]);
      if id.None? || id.value < 1 then None else id
  }

  /** Writing a marker's name and reading it back. */
  lemma NameRoundTrip(id: nat)
    requires 1 <= id <= MAX_INT64
    ensures MarkedBy(TombstoneName(id)) == Some(id)
  {
    var name := TombstoneName(id);
    assert name[..|PREFIX|] == PREFIX;
    assert name[|name| - |SUFFIX|..] == SUFFIX;
    assert name[|PREFIX|..|name| - |SUFFIX|] == Padded(id);
    PaddedValue(id);
  }

  lemma PaddedValue(id: nat)
    ensures Value(Padded(id)) == id
    ensures id <= MAX_INT64 ==> ParseInt(Padded(id)) == Some(id)
  {
    var digits := Decimal(id);
    ValueOfDecimal(id);
    if |digits| < WIDTH { PaddingAddsNothing(WIDTH - |digits|, digits); }
    assert IsDigit(Padded(id)[0]);
  }

  lemma LocksMarkNothing(id: nat)
    ensures MarkedBy(LockName(id)) == None
  {
    var name := LockName(id);
    assert name[|name| - 1] == 'k';
    if EndsWith(name, SUFFIX) {
      assert false;
    }
  }

  /** A name is padded to six digits and no further. */
  lemma PaddedToSix(id: nat)
    ensures |Padded(id)| >= 6 && (|Padded(id)| > 6 ==> Padded(id)[0] != '0')
  {
    DecimalLeads(id);
  }

  lemma {:induction false} DecimalLeads(n: nat)
    ensures n > 0 ==> Decimal(n)[0] != '0'
  {
    if n >= 10 { DecimalLeads(n / 10); }
  }

  /** Names that mark an account: the prefix, the digits of an id that fits in 64 bits, padded or
      not and with a plus sign or not, and the suffix; no other name marks anything. */
  lemma MarksExactlyWhen(name: string, id: int)
    ensures MarkedBy(name) == Some(id) <==>
              && 1 <= id < 0x8000_0000_0000_0000
              && exists digits :: digits != "" && AllDigits(digits) && Value(digits) == id &&
                   (name == "account-" + digits + ".deleted" || name == "account-+" + digits + ".deleted")
  {
    if MarkedBy(name) == Some(id) {
      NoOverlap(name);
      var text := name[|PREFIX|..|name| - |SUFFIX|];
      var digits := if text[0] == '+' then text[1..] else text;
      assert text == digits || text == "+" + digits;
      assert PREFIX + "+" == "account-+";
      Associates(PREFIX, "+", digits);
    }
    if 1 <= id <= MAX_INT64 {
      forall digits | digits != "" && AllDigits(digits) && Value(digits) == id
        ensures name == "account-" + digits + ".deleted" ==> MarkedBy(name) == Some(id)
        ensures name == "account-+" + digits + ".deleted" ==> MarkedBy(name) == Some(id)
      {
        assert IsDigit(digits[0]);
        if name == "account-" + digits + ".deleted" { CutsOut(name, digits); }
        if name == "account-+" + digits + ".deleted" {
          assert PREFIX + "+" == "account-+";
          Associates(PREFIX, "+", digits);
          CutsOut(name, "+" + digits);
          assert ("+" + digits)[1..] == digits;
        }
      }
    }
  }

  lemma CutsOut(name: string, text: string)
    requires name == PREFIX + text + SUFFIX
    ensures StartsWith(name, PREFIX) && EndsWith(name, SUFFIX) && name[|PREFIX|..|name| - |SUFFIX|] == text
  {
    assert name[..|PREFIX|] == PREFIX;
    assert name[|name| - |SUFFIX|..] == SUFFIX;
  }

  // ---- the scan ----

  /** Reads every tombstoned id in one pass of the directory. */
  method TombstonedIds(entries: seq<string>) returns (found: set<int>)
    ensures forall id :: id in found <==> exists i :: 0 <= i < |entries| && MarkedBy(entries[i]) == Some(id)
  {
    found := {};
    for i := 0 to |entries|
      invariant forall id :: id in found <==> exists k :: 0 <= k < i && MarkedBy(entries[k]) == Some(id)
    {
      var name := entries[i];
      if !StartsWith(name, PREFIX) || !EndsWith(name, SUFFIX) { continue; }
      NoOverlap(name);
      var digits := name[|PREFIX|..|name| - |SUFFIX|];
      var id := ParseInt(digits);
      if id.None? || id.value < 1 { continue; }
      found := found + {id.value};
    }
  }

  /** A directory that holds exactly the markers of some accounts, the lock files of any
      accounts, and nothing else. */
  ghost predicate GuardDirectory(entries: seq<string>, deleted: set<int>) {
    && (forall id :: id in deleted ==> 1 <= id <= MAX_INT64)
    && (forall id: nat :: id in deleted ==> TombstoneName(id) in entries)
    && (forall i :: 0 <= i < |entries| ==> Ours(entries[i], deleted))
  }

  ghost predicate Ours(entry: string, deleted: set<int>) {
    (exists id: nat :: entry == LockName(id)) || (exists id: nat :: id in deleted && entry == TombstoneName(id))
  }

  /** The scan recovers exactly the deleted accounts, and ignores the lock files. */
  lemma ScanFindsExactlyTheDeleted(entries: seq<string>, deleted: set<int>, id: int)
    requires GuardDirectory(entries, deleted)
    ensures id in deleted <==> exists i :: 0 <= i < |entries| && MarkedBy(entries[i]) == Some(id)
  {
    if id in deleted {
      NameRoundTrip(id);
      assert TombstoneName(id) in entries;
    }
    forall i | 0 <= i < |entries| && MarkedBy(entries[i]) == Some(id)
      ensures id in deleted
    {
      assert Ours(entries[i], deleted);
      if lock: nat :| entries[i] == LockName(lock) {
        LocksMarkNothing(lock);
      } else {
        var other: nat :| other in deleted && entries[i] == TombstoneName(other);
        NameRoundTrip(other);
      }
    }
  }

  method ScanGuardDirectory(entries: seq<string>, ghost deleted: set<int>) returns (found: set<int>)
    requires GuardDirectory(entries, deleted)
    ensures forall id :: id in found <==> id in deleted
  {
    found := TombstonedIds(entries);
    forall id { ScanFindsExactlyTheDeleted(entries, deleted, id); }
  }
}
