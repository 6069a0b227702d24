/**
 The audit log of internal/store/audit.go: order-preserving keys in an ordered
 bucket, a filtered reverse scan, and paging.
 */
module AuditLog {
  import opened Prelude

  datatype Entry = Entry(
    id: string,
    timestamp: int,  // Unix nanoseconds
    actor: string,
    action: string,
    resource: string,
    detail: string,
    level: string)

  // ---- Keys ------------------------------------------------------------------------------

  function Digit(d: int): char
    requires 0 <= d < 10
  {
    '0' + d as char
  }

  // n in decimal with at least width digits, as %0*d prints it.
  function Padded(n: nat, width: nat): string
    decreases n, width
  {
    if n == 0 && width == 0 then ""
    else Padded(n / 10, if width > 0 then width - 1 else 0) + [Digit(n % 10)]
  }

  function Stamp(timestamp: int): string {
    if timestamp >= 0 then Padded(timestamp, 19) else "-" + Padded(-timestamp, 18)
  }

  function Key(e: Entry): string {
    Stamp(e.timestamp) + "_" + e.id
  }

  // Bytewise order of keys.
  predicate Less(s: string, t: string) {
    if t == "" then false
    else if s == "" then true
    else if s[0] != t[0] then s[0] < t[0]
    else Less(s[1..], t[1..])
  }

  lemma {:induction false} LessTransitive(a: string, b: string, d: string)
    requires Less(a, b) && Less(b, d)
    ensures Less(a, d)
  {
    if a != "" && a[0] == b[0] == d[0] {
      LessTransitive(a[1..], b[1..], d[1..]);
    }
  }

  lemma {:induction false} LessTotal(a: string, b: string)
    ensures Less(a, b) || Less(b, a) || a == b
    ensures !(Less(a, b) && Less(b, a)) && !Less(a, a)
  {
    if a != "" && b != "" {
      LessTotal(a[1..], b[1..]);
      LessIrreflexive(a);
      assert a == [a[0]] + a[1..] && b == [b[0]] + b[1..];
    } else {
      LessIrreflexive(a);
    }
  }

  lemma {:induction false} LessIrreflexive(a: string)
    ensures !Less(a, a)
  {
    if a != "" {
      LessIrreflexive(a[1..]);
    }
  }

  // Texts of equal length: order is decided before anything appended to them.
  lemma {:induction false} LessAppend(a: string, b: string, x: string, y: string)
    requires |a| == |b|
    ensures Less(a, b) ==> Less(a + x, b + y)
    ensures a == b && Less(x, y) ==> Less(a + x, b + y)
  {
    if a == "" {
      assert a + x == x && b + y == y;
    } else {
      assert (a + x)[1..] == a[1..] + x && (b + y)[1..] == b[1..] + y;
      LessAppend(a[1..], b[1..], x, y);
    }
  }

  function Pow10(w: nat): nat {
    if w == 0 then 1 else 10 * Pow10(w - 1)
  }

  lemma {:induction false} PaddedLength(n: nat, width: nat)
    requires n < Pow10(width)
    ensures |Padded(n, width)| == width
  {
    if width > 0 {
      PaddedLength(n / 10, width - 1);
    }
  }

  // Padded numbers that fit the width compare as they do numerically.
  lemma {:induction false} PaddedOrder(a: nat, b: nat, width: nat)
    requires a < b < Pow10(width)
    ensures Less(Padded(a, width), Padded(b, width))
  {
    PaddedLength(a / 10, width - 1);
    PaddedLength(b / 10, width - 1);
    if a / 10 < b / 10 {
      PaddedOrder(a / 10, b / 10, width - 1);
    }
    LessAppend(Padded(a / 10, width - 1), Padded(b / 10, width - 1), [Digit(a % 10)], [Digit(b % 10)]);
  }

  const MAX_INT64: int := 0x7FFF_FFFF_FFFF_FFFF

  lemma Int64Fits()
    ensures MAX_INT64 + 1 < Pow10(19) == 10 * Pow10(18)
  {
    assert Pow10(5) == 100000;
    assert Pow10(10) == 10000000000;
    assert Pow10(15) == 1000000000000000;
    assert Pow10(19) == 10000000000000000000;
  }

  // Keys of entries from 1970 on are ordered by time, whatever their ids.
  lemma KeyOrder(a: Entry, b: Entry)
    requires 0 <= a.timestamp < b.timestamp <= MAX_INT64
    ensures Less(Key(a), Key(b))
  {
    Int64Fits();
    hide Padded, Pow10, Less;
    PaddedLength(a.timestamp, 19);
    PaddedLength(b.timestamp, 19);
    PaddedOrder(a.timestamp, b.timestamp, 19);
    LessAppend(Stamp(a.timestamp), Stamp(b.timestamp), "_" + a.id, "_" + b.id);
    assert Key(a) == Stamp(a.timestamp) + ("_" + a.id) && Key(b) == Stamp(b.timestamp) + ("_" + b.id);
  }

  // ---- Times before 1970: the sign is no digit ----------------------------------------------

  // A number one digit longer than the width is printed in full.
  lemma {:induction false} PaddedOverflow(n: nat, width: nat)
    requires Pow10(width) <= n < Pow10(width + 1)
    ensures Padded(n, width) == Padded(n, width + 1) == Padded(n / 10, width) + [Digit(n % 10)]
  {
    if width > 0 {
      PaddedOverflow(n / 10, width - 1);
    } else {
      assert Padded(0, 0) == "";
    }
  }

  // The key of a negative time: sign, digits, id.
  function NegativeKey(digits: string, e: Entry): string {
    "-" + (digits + ("_" + e.id))
  }

  lemma NegativeKeyOf(e: Entry)
    requires e.timestamp < 0
    ensures Key(e) == NegativeKey(Padded(-e.timestamp, 18), e)
  {
    hide Padded;
  }

  lemma LessNegative(x: string, y: string, a: Entry, b: Entry)
    requires |x| == |y| && Less(x, y)
    ensures Less(NegativeKey(x, a), NegativeKey(y, b))
  {
    LessAppend(x, y, "_" + a.id, "_" + b.id);
    LessAppend("-", "-", x + ("_" + a.id), y + ("_" + b.id));
  }

  // The digits of two negative times that are printed equally long compare as the
  // absolute values do, so the times compare the other way round.
  lemma EquallyLongReversed(a: Entry, b: Entry, width: nat)
    requires a.timestamp < b.timestamp < 0 && -a.timestamp < Pow10(width)
    requires Padded(-a.timestamp, 18) == Padded(-a.timestamp, width)
    requires Padded(-b.timestamp, 18) == Padded(-b.timestamp, width)
    ensures Less(Key(b), Key(a)) && !Less(Key(a), Key(b))
  {
    hide Padded, Pow10, Less, Key;
    PaddedLength(-a.timestamp, width);
    PaddedLength(-b.timestamp, width);
    PaddedOrder(-b.timestamp, -a.timestamp, width);
    NegativeKeyOf(a);
    NegativeKeyOf(b);
    LessNegative(Padded(-b.timestamp, 18), Padded(-a.timestamp, 18), b, a);
    LessTotal(Key(a), Key(b));
  }

  // Against a time printed one digit shorter, the last digit meets the separator.
  lemma DigitBeforeSeparator(a: Entry, b: Entry)
    requires Pow10(18) <= -a.timestamp < Pow10(19) && 0 < -b.timestamp < Pow10(18)
    ensures Less(Key(a), Key(b)) <==> -a.timestamp / 10 <= -b.timestamp
  {
    hide Padded, Pow10, Less, Key;
    var n, m, last := -a.timestamp / 10, -b.timestamp, [Digit(-a.timestamp % 10)];
    PaddedOverflow(-a.timestamp, 18);
    Tenth(-a.timestamp, 18);
    PaddedLength(n, 18);
    PaddedLength(m, 18);
    NegativeKeyOf(a);
    NegativeKeyOf(b);
    var x, y := last + ("_" + a.id), "_" + b.id;
    assert Key(a) == "-" + (Padded(n, 18) + x) by {
      assert (Padded(n, 18) + last) + ("_" + a.id) == Padded(n, 18) + x;
    }
    assert Key(b) == "-" + (Padded(m, 18) + y);
    SeparatorLast(-a.timestamp % 10, a.id, b.id);
    if n < m { PaddedOrder(n, m, 18); } else if m < n { PaddedOrder(m, n, 18); }
    LessAppend(Padded(n, 18), Padded(m, 18), x, y);
    LessAppend(Padded(m, 18), Padded(n, 18), y, x);
    LessAppend("-", "-", Padded(n, 18) + x, Padded(m, 18) + y);
    LessAppend("-", "-", Padded(m, 18) + y, Padded(n, 18) + x);
    LessTotal(Key(a), Key(b));
  }

  lemma Tenth(n: nat, width: nat)
    requires n < Pow10(width + 1)
    ensures n / 10 < Pow10(width)
  {
  }

  lemma SeparatorLast(d: int, x: string, y: string)
    requires 0 <= d < 10
    ensures Less([Digit(d)] + ("_" + x), "_" + y)
  {
  }

  lemma SignFirst(a: Entry, b: Entry)
    requires a.timestamp < 0 <= b.timestamp <= MAX_INT64
    ensures Less(Key(a), Key(b))
  {
    Int64Fits();
    hide Padded, Pow10;
    PaddedLength(b.timestamp, 19);
    PaddedDigits(b.timestamp, 19);
    NegativeKeyOf(a);
    assert Key(a)[0] == '-' && Key(b)[0] == Padded(b.timestamp, 19)[0];
  }

  lemma {:induction false} PaddedDigits(n: nat, width: nat)
    ensures forall i :: 0 <= i < |Padded(n, width)| ==> '0' <= Padded(n, width)[i] <= '9'
  {
    if n != 0 || width != 0 {
      PaddedDigits(n / 10, if width > 0 then width - 1 else 0);
    }
  }

  // Which pairs of int64 times the bucket holds in the order of time.
  predicate InOrder(a: int, b: int) {
    b >= 0 || (a <= -(Pow10(18) as int) < b && -a / 10 <= -b)
  }

  // For all int64 times: the keys of an earlier and a later entry compare as the times
  // exactly if the later one is not before 1970, or the earlier one is so early (before
  // 1938) that it takes one more digit and the digits happen to agree.
  lemma KeyOrderExactly(a: Entry, b: Entry)
    requires -MAX_INT64 - 1 <= a.timestamp < b.timestamp <= MAX_INT64
    ensures Less(Key(a), Key(b)) <==> InOrder(a.timestamp, b.timestamp)
  {
    Int64Fits();
    hide Padded, Pow10, Less, Key;
    if a.timestamp >= 0 {
      KeyOrder(a, b);
    } else if b.timestamp >= 0 {
      SignFirst(a, b);
    } else if -a.timestamp < Pow10(18) {
      EquallyLongReversed(a, b, 18);
    } else if -b.timestamp < Pow10(18) {
      DigitBeforeSeparator(a, b);
    } else {
      PaddedOverflow(-a.timestamp, 18);
      PaddedOverflow(-b.timestamp, 18);
      EquallyLongReversed(a, b, 19);
    }
  }

  // So between 1938 and 1970 the order is always reversed.
  lemma NegativeKeysReversed(a: Entry, b: Entry)
    requires 0 < -b.timestamp < -a.timestamp < Pow10(18)
    ensures Less(Key(b), Key(a))
  {
    hide Padded, Pow10, Less, Key;
    EquallyLongReversed(a, b, 18);
  }

  // ---- Filter, scan, pages -----------------------------------------------------------------

  datatype Filter = Filter(actor: string, action: string, resource: string, from: Option<int>, to: Option<int>)

  predicate Matches(f: Filter, e: Entry) {
    && (f.actor != "" ==> e.actor == f.actor)
    && (f.action != "" ==> e.action == f.action)
    && (f.resource != "" ==> e.resource == f.resource)
    && (f.from.Some? ==> e.timestamp >= f.from.value)
    && (f.to.Some? ==> e.timestamp <= f.to.value)
  }

  // The matching entries, last first.
  function Scan(f: Filter, log: seq<Entry>): seq<Entry> {
    if log == [] then []
    else (if Matches(f, log[|log| - 1]) then [log[|log| - 1]] else []) + Scan(f, log[..|log| - 1])
  }

  function PageSize(size: int): (n: int)
    ensures 1 <= n <= 100
  {
    if size <= 0 then 20 else if size > 100 then 100 else size
  }

  function Offset(number: int, size: int): (n: int)
    requires number >= 1 && size >= 1
    ensures n >= 0
  {
    (number - 1) * size
  }

  function Page(all: seq<Entry>, page: int, size: int): seq<Entry> {
    var n := PageSize(size);
    var start := Offset(if page <= 0 then 1 else page, n);
    if start >= |all| then []
    else if start + n > |all| then all[start..]
    else all[start..start + n]
  }

  // Key order along the bucket.
  ghost predicate Sorted(log: seq<Entry>) {
    forall i, j :: 0 <= i < j < |log| ==> Less(Key(log[i]), Key(log[j]))
  }

  // ---- Store ---------------------------------------------------------------------------------

  class Store {
    var log: seq<Entry>  // the bucket, in key order

    constructor ()
      ensures log == []
    {
      log := [];
    }

    ghost predicate Valid()
      reads this
    {
      Sorted(log)
    }

    // dated: the caller set the time stamp (it is not Go's zero time).
    method CreateAuditLog(entry: Entry, dated: bool, now: int, randomId: string) returns (stored: Entry)
      requires Valid()
      modifies this
      ensures Valid()
      ensures stored == entry.(id := if entry.id == "" then randomId else entry.id,
                               timestamp := if dated then entry.timestamp else now,
                               level := if entry.level == "" then "info" else entry.level)
      ensures forall e :: e in log <==> e == stored || (e in old(log) && Key(e) != Key(stored))
    {
      stored := entry.(id := if entry.id == "" then randomId else entry.id,
                       timestamp := if dated then entry.timestamp else now,
                       level := if entry.level == "" then "info" else entry.level);
      var i := 0;
      while i < |log| && Less(Key(log[i]), Key(stored))
        invariant 0 <= i <= |log| && log == old(log)
        invariant forall j :: 0 <= j < i ==> Less(Key(log[j]), Key(stored))
      {
        i := i + 1;
      }
      var rest := if i < |log| && Key(log[i]) == Key(stored) then log[i + 1..] else log[i..];
      InsertSorted(log, stored, i, rest);
      log := log[..i] + [stored] + rest;
    }

    method ListAuditLogs(f: Filter, page: int, pageSize: int) returns (items: seq<Entry>, total: nat)
      ensures items == Page(Scan(f, log), page, pageSize)
      ensures total == |Scan(f, log)|
    {
      assert Scan(f, []) == [];
      hide Scan;
      hide Page;
      var all: seq<Entry> := [];
      var k := |log|;
      assert log[..k] == log;
      while k > 0
        invariant 0 <= k <= |log|
        invariant Scan(f, log) == all + Scan(f, log[..k])
      {
        k := k - 1;
        var e := log[k];
        ScanStep(f, log, k, all);
        if (f.actor != "" && e.actor != f.actor)
           || (f.action != "" && e.action != f.action)
           || (f.resource != "" && e.resource != f.resource)
           || (f.from.Some? && e.timestamp < f.from.value)
           || (f.to.Some? && e.timestamp > f.to.value)
        {
          continue;
        }
        all := all + [e];
      }
      assert log[..0] == [];
      total := |all|;
      items := CutPage(all, page, pageSize);
    }
  }

  method CutPage(all: seq<Entry>, page: int, pageSize: int) returns (items: seq<Entry>)
    ensures items == Page(all, page, pageSize)
  {
    hide Offset;
    var size := if pageSize <= 0 then 20 else if pageSize > 100 then 100 else pageSize;
    var number := if page <= 0 then 1 else page;
    var start := Offset(number, size);
    if start >= |all| {
      return [];
    }
    var end := start + size;
    if end > |all| {
      end := |all|;
    }
    items := all[start..end];
  }

  lemma InsertSorted(log: seq<Entry>, e: Entry, i: nat, rest: seq<Entry>)
    requires Sorted(log) && i <= |log|
    requires forall j :: 0 <= j < i ==> Less(Key(log[j]), Key(e))
    requires i < |log| ==> !Less(Key(log[i]), Key(e))
    requires rest == if i < |log| && Key(log[i]) == Key(e) then log[i + 1..] else log[i..]
    ensures Sorted(log[..i] + [e] + rest)
    ensures forall x :: x in log[..i] + [e] + rest <==> x == e || (x in log && Key(x) != Key(e))
  {
    hide Less, Key;
    RestIsGreater(log, e, i, rest);
    var out := log[..i] + [e] + rest;
    forall a, b | 0 <= a < b < |out| ensures Less(Key(out[a]), Key(out[b])) {
      if a < i < b {
        LessTransitive(Key(out[a]), Key(e), Key(out[b]));
      }
    }
    forall x ensures x in out <==> x == e || (x in log && Key(x) != Key(e)) {
      KeyPresence(log, e, i, rest, x);
    }
  }

  // Behind position i the keys are greater than the new one.
  lemma RestIsGreater(log: seq<Entry>, e: Entry, i: nat, rest: seq<Entry>)
    requires Sorted(log) && i <= |log|
    requires i < |log| ==> !Less(Key(log[i]), Key(e))
    requires rest == if i < |log| && Key(log[i]) == Key(e) then log[i + 1..] else log[i..]
    ensures forall j :: 0 <= j < |rest| ==> Less(Key(e), Key(rest[j]))
  {
    hide Less, Key;
    forall j | 0 <= j < |rest| ensures Less(Key(e), Key(rest[j])) {
      LessTotal(Key(log[i]), Key(e));
      var at := |log| - |rest| + j;
      if i < at && Key(log[i]) != Key(e) {
        LessTransitive(Key(e), Key(log[i]), Key(log[at]));
      }
    }
  }

  lemma KeyPresence(log: seq<Entry>, e: Entry, i: nat, rest: seq<Entry>, x: Entry)
    requires i <= |log|
    requires forall j :: 0 <= j < i ==> Less(Key(log[j]), Key(e))
    requires forall j :: 0 <= j < |rest| ==> Less(Key(e), Key(rest[j]))
    requires rest == if i < |log| && Key(log[i]) == Key(e) then log[i + 1..] else log[i..]
    ensures x in log[..i] + [e] + rest <==> x == e || (x in log && Key(x) != Key(e))
  {
    hide Less, Key;
    LessIrreflexive(Key(e));
    if x in log && Key(x) != Key(e) {
      var j :| 0 <= j < |log| && log[j] == x;
      if j < i {
        assert x in log[..i];
      } else {
        assert rest[j - (|log| - |rest|)] == x;
      }
    }
  }

  // One turn of the scan: the entry at k is taken or skipped.
  lemma ScanStep(f: Filter, log: seq<Entry>, k: nat, all: seq<Entry>)
    requires k < |log|
    ensures Matches(f, log[k]) ==> all + Scan(f, log[..k + 1]) == (all + [log[k]]) + Scan(f, log[..k])
    ensures !Matches(f, log[k]) ==> all + Scan(f, log[..k + 1]) == all + Scan(f, log[..k])
  {
    hide Matches;
    assert log[..k + 1][..k] == log[..k];
  }

  // ---- What a reader gets -------------------------------------------------------------------------

  // The scan holds exactly the entries that have the actor, action and resource asked
  // for, where one is asked for, within the times asked for.
  lemma {:induction false} ScanIsFilter(f: Filter, log: seq<Entry>)
    ensures forall e :: e in Scan(f, log) <==>
      && e in log
      && (f.actor == "" || e.actor == f.actor)
      && (f.action == "" || e.action == f.action)
      && (f.resource == "" || e.resource == f.resource)
      && (f.from == None || f.from.value <= e.timestamp)
      && (f.to == None || e.timestamp <= f.to.value)
    ensures |Scan(f, log)| <= |log|
  {
    if log != [] {
      ScanIsFilter(f, log[..|log| - 1]);
      assert log == log[..|log| - 1] + [log[|log| - 1]];
    }
  }

  // Newest first: timestamps never increase along the scan, and no entry repeats.
  lemma {:induction false} ScanNewestFirst(f: Filter, log: seq<Entry>)
    requires Sorted(log) && forall e :: e in log ==> 0 <= e.timestamp <= MAX_INT64
    ensures forall i, j :: 0 <= i < j < |Scan(f, log)| ==>
      Scan(f, log)[i].timestamp >= Scan(f, log)[j].timestamp && Key(Scan(f, log)[i]) != Key(Scan(f, log)[j])
  {
    hide Matches, Key;
    if log != [] {
      var before, last := log[..|log| - 1], log[|log| - 1];
      ScanNewestFirst(f, before);
      ScanIsFilter(f, before);
      forall j | 0 <= j < |Scan(f, before)|
        ensures last.timestamp >= Scan(f, before)[j].timestamp && Key(last) != Key(Scan(f, before)[j])
      {
        var e := Scan(f, before)[j];
        assert e in before;
        var k :| 0 <= k < |before| && before[k] == e;
        assert log[k] == e && Less(Key(log[k]), Key(log[|log| - 1]));
        LessTotal(Key(e), Key(last));
        if last.timestamp < e.timestamp {
          KeyOrder(last, e);
        }
      }
    }
  }

  function Pages(all: seq<Entry>, size: int, n: nat): seq<Entry> {
    if n == 0 then [] else Pages(all, size, n - 1) + Page(all, n, size)
  }

  lemma {:induction false} FirstPages(all: seq<Entry>, size: int, n: nat)
    ensures Pages(all, size, n) == if n * PageSize(size) <= |all| then all[..n * PageSize(size)] else all
  {
    var s := PageSize(size);
    if n > 0 {
      FirstPages(all, size, n - 1);
      var start := Offset(n, s);
      assert start == (n - 1) * s && n * s == start + s;
      hide Offset;
      if start + s <= |all| {
        assert all[..start] + all[start..start + s] == all[..start + s];
      } else if start <= |all| {
        assert all[..start] + all[start..] == all;
      }
    }
  }

  // The pages 1 to ceil(total / size), one after the other, are the filtered list:
  // nothing lost, nothing twice; every later page is empty.
  lemma PagesCoverAll(all: seq<Entry>, size: int, n: nat)
    requires n >= (|all| + PageSize(size) - 1) / PageSize(size)
    ensures Pages(all, size, n) == all
    ensures Page(all, n + 1, size) == []
  {
    var s := PageSize(size);
    FirstPages(all, size, n);
    Ceiling(|all|, s, n);
  }

  lemma Ceiling(total: nat, s: int, n: nat)
    requires 1 <= s && n >= (total + s - 1) / s
    ensures n * s >= total
  {
    var q := (total + s - 1) / s;
    assert total + s - 1 == s * q + (total + s - 1) % s;
    assert n * s == q * s + (n - q) * s;
  }

  // How many entries a page holds, by the size and number asked for: 20 if no size is
  // asked for, at most 100, the first page if no number is.
  lemma PageHolds(all: seq<Entry>, page: int, size: int)
    ensures
      var n: int := if size < 1 then 20 else if size > 100 then 100 else size;
      var before: int := ((if page < 1 then 1 else page) - 1) * n;
      |Page(all, page, size)| == if before >= |all| then 0 else if |all| - before < n then |all| - before else n
    ensures page < 1 ==> Page(all, page, size) == Page(all, 1, size)
  {
  }

  // Entries of 1970 and later share a key exactly if they share time and id.
  lemma KeysTell(a: Entry, b: Entry)
    requires 0 <= a.timestamp <= MAX_INT64 && 0 <= b.timestamp <= MAX_INT64
    ensures Key(a) == Key(b) <==> a.timestamp == b.timestamp && a.id == b.id
  {
    Int64Fits();
    LessIrreflexive(Key(a));
    if a.timestamp < b.timestamp {
      KeyOrder(a, b);
    } else if b.timestamp < a.timestamp {
      KeyOrder(b, a);
    } else {
      var stamp := Stamp(a.timestamp);
      assert Key(a) == stamp + ("_" + a.id) && Key(b) == stamp + ("_" + b.id);
      assert Key(a)[|stamp|..] == "_" + a.id && Key(b)[|stamp|..] == "_" + b.id;
      assert ("_" + a.id)[1..] == a.id && ("_" + b.id)[1..] == b.id;
    }
  }
}
