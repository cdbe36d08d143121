/**
 Merging messages in the web client: `mergeMessages`, `messageKey` and `sortMessages` of web/src/App.tsx.

 A message's timestamp is the number Date.parse gives, or None when `created_at` is absent or empty; text that does not
 parse is not modelled.  A JavaScript Map keeps keys in order of first insertion, and so does the list of entries here.
*/
module Merge {
  import opened Basics
  import opened Sorting

  datatype Message = Message(id: int, guid: Option<string>, createdAt: Option<int>, content: string)

  // ---------------------------------------------------------------- keys

  /** White space as String.prototype.trim removes it. */
  predicate IsWhite(c: char) {
    || '\U{0009}' <= c <= '\U{000D}'
    || c == ' ' || c == '\U{00A0}' || c == '\U{1680}' || '\U{2000}' <= c <= '\U{200A}'
    || c == '\U{2028}' || c == '\U{2029}' || c == '\U{202F}' || c == '\U{205F}' || c == '\U{3000}' || c == '\U{FEFF}'
  }

  function Trim(s: string): string {
    if s == "" then ""
    else if IsWhite(s[0]) then Trim(s[1..])
    else if IsWhite(s[|s| - 1]) then Trim(s[..|s| - 1])
    else s
  }

  function Digits(n: nat): string {
    if n < 10 then ["0123456789"[n]] else Digits(n / 10) + ["0123456789"[n % 10]]
  }

  function Decimal(n: int): string {
    if n < 0 then "-" + Digits(-n) else Digits(n)
  }

  function KeyOf(m: Message): string {
    if m.guid.Some? && Trim(m.guid.value) != "" then Trim(m.guid.value) else Decimal(m.id)
  }

  function Number(s: string): nat {
    if s == "" then 0
    else
      var last := s[|s| - 1];
      10 * Number(s[..|s| - 1]) + if '0' <= last <= '9' then last as int - '0' as int else 0
  }

  /** `Digits` is the decimal numeral: only digits, the right value, and no leading zero. */
  lemma {:induction false} NumberOfDigits(n: nat)
    ensures Number(Digits(n)) == n && Digits(n) != "" && Digits(n)[0] != '-'
    ensures forall c :: c in Digits(n) ==> '0' <= c <= '9'
    ensures Digits(n)[0] == '0' ==> n == 0 && |Digits(n)| == 1
  {
    if n >= 10 {
      NumberOfDigits(n / 10);
      assert Digits(n)[..|Digits(n)| - 1] == Digits(n / 10);
    } else {
      assert Digits(n)[..0] == "";
    }
  }

  /** Without a guid, messages have the same key exactly when they have the same id. */
  lemma KeysOfIDs(a: Message, b: Message)
    requires a.guid == b.guid == None
    ensures KeyOf(a) == KeyOf(b) <==> a.id == b.id
  {
    hide Digits, Trim, Number;
    DecimalIsInjective(a.id, b.id);
  }

  lemma DecimalIsInjective(m: int, n: int)
    ensures Decimal(m) == Decimal(n) <==> m == n
  {
    hide Digits, Number;
    NumberOfDigits(if m < 0 then -m else m);
    NumberOfDigits(if n < 0 then -n else n);
    if m < 0 { assert Decimal(m)[0] == '-' && Decimal(m)[1..] == Digits(-m); }
    if n < 0 { assert Decimal(n)[0] == '-' && Decimal(n)[1..] == Digits(-n); }
  }

  // ---------------------------------------------------------------- order

  function Timestamp(m: Message): int {
    if m.createdAt.Some? then m.createdAt.value else 0
  }

  /** The comparator: by timestamp, then by id. */
  predicate Before(left: Message, right: Message) {
    if Timestamp(left) != Timestamp(right) then Timestamp(left) < Timestamp(right) else left.id < right.id
  }

  lemma BeforeIsOrder()
    ensures WeakOrder(Before)
  {
  }

  function SortMessages(ms: seq<Message>): seq<Message> {
    Sort(ms, Before)
  }

  // ---------------------------------------------------------------- the map

  function HasKey(key: string): Message -> bool {
    (m: Message) => KeyOf(m) == key
  }

  /** Map.set: an existing key keeps its place and gets the new value; a new key goes to the end. */
  function SetEntry(entries: seq<Message>, m: Message): seq<Message> {
    var i := First(entries, HasKey(KeyOf(m)));
    if i < |entries| then entries[i := m] else entries + [m]
  }

  function ByKey(ms: seq<Message>): seq<Message> {
    if ms == [] then [] else SetEntry(ByKey(ms[..|ms| - 1]), ms[|ms| - 1])
  }

  function Merged(current: seq<Message>, older: seq<Message>): seq<Message> {
    SortMessages(ByKey(current + older))
  }

  method MergeMessages(current: seq<Message>, older: seq<Message>) returns (merged: seq<Message>)
    ensures merged == Merged(current, older)
  {
    hide SetEntry, SortMessages;
    var all := current + older;
    var byKey: seq<Message> := [];
    var i := 0;
    while i < |all|
      invariant 0 <= i <= |all|
      invariant byKey == ByKey(all[..i])
    {
      assert all[..i + 1][..i] == all[..i];
      byKey := SetEntry(byKey, all[i]);
      i := i + 1;
    }
    assert all[..i] == all;
    return SortMessages(byKey);
  }

  // ---------------------------------------------------------------- one message per key, the last one

  /** The last message with a key. */
  function LastWith(ms: seq<Message>, key: string): Option<Message> {
    if ms == [] then None
    else if KeyOf(ms[|ms| - 1]) == key then Some(ms[|ms| - 1])
    else LastWith(ms[..|ms| - 1], key)
  }

  ghost predicate DistinctKeys(ms: seq<Message>) {
    forall i, j :: 0 <= i < j < |ms| ==> KeyOf(ms[i]) != KeyOf(ms[j])
  }

  lemma {:induction false} LastWithIsThere(ms: seq<Message>, key: string)
    ensures var l := LastWith(ms, key);
      && (l.Some? ==> l.value in ms && KeyOf(l.value) == key)
      && (l.None? ==> forall m :: m in ms ==> KeyOf(m) != key)
  {
    hide KeyOf;
    if ms != [] {
      LastWithIsThere(ms[..|ms| - 1], key);
      assert ms == ms[..|ms| - 1] + [ms[|ms| - 1]];
    }
  }

  lemma {:induction false} LastWithConcat(a: seq<Message>, b: seq<Message>, key: string)
    ensures LastWith(a + b, key) == if LastWith(b, key).Some? then LastWith(b, key) else LastWith(a, key)
  {
    if b == [] {
      assert a + b == a;
    } else {
      var n := |b| - 1;
      LastWithConcat(a, b[..n], key);
      assert (a + b)[..|a + b| - 1] == a + b[..n];
    }
  }

  /** Among messages with distinct keys, the last with a key is the only one with it. */
  lemma {:induction false} LastWithDistinct(ms: seq<Message>, m: Message)
    requires DistinctKeys(ms)
    ensures m in ms <==> LastWith(ms, KeyOf(m)) == Some(m)
  {
    hide KeyOf;
    if ms != [] {
      var front, last := ms[..|ms| - 1], ms[|ms| - 1];
      DistinctFront(ms);
      LastWithDistinct(front, m);
      assert ms == front + [last];
      assert m in ms <==> m in front || m == last;
    }
  }

  lemma DistinctFront(ms: seq<Message>)
    requires DistinctKeys(ms) && ms != []
    ensures var front := ms[..|ms| - 1];
      DistinctKeys(front) && forall x :: x in front ==> KeyOf(x) != KeyOf(ms[|ms| - 1])
  {
    hide KeyOf;
  }

  lemma SetEntryMeaning(entries: seq<Message>, m: Message)
    requires DistinctKeys(entries)
    ensures var after := SetEntry(entries, m);
      && DistinctKeys(after)
      && (forall x :: x in after <==> x == m || (x in entries && KeyOf(x) != KeyOf(m)))
  {
    var wanted := HasKey(KeyOf(m));
    var i := First(entries, wanted);
    var after := SetEntry(entries, m);
    forall k | 0 <= k < |entries| ensures KeyOf(entries[k]) == KeyOf(m) <==> k == i {
      if k < i { assert !wanted(entries[k]); }
      if i < |entries| { assert wanted(entries[i]); }
    }
    forall x ensures x in after <==> x == m || (x in entries && KeyOf(x) != KeyOf(m)) {
      if x in entries && KeyOf(x) != KeyOf(m) {
        var k :| 0 <= k < |entries| && entries[k] == x;
        assert after[k] == x;
      }
      if x in after && x != m {
        var k :| 0 <= k < |after| && after[k] == x;
        assert k != i && entries[k] == x;
      }
      if i < |entries| { assert after[i] == m; } else { assert after[|entries|] == m; }
    }
  }

  /** The map ends up with exactly the last message of each key. */
  lemma {:induction false} ByKeyMeaning(ms: seq<Message>)
    ensures DistinctKeys(ByKey(ms))
    ensures forall m :: m in ByKey(ms) <==> LastWith(ms, KeyOf(m)) == Some(m)
  {
    if ms != [] {
      ByKeyMeaning(ms[..|ms| - 1]);
      SetEntryMeaning(ByKey(ms[..|ms| - 1]), ms[|ms| - 1]);
    }
  }

  lemma SortKeepsKeys(ms: seq<Message>)
    requires DistinctKeys(ms)
    ensures DistinctKeys(SortMessages(ms)) && Sorted(SortMessages(ms), Before)
    ensures forall m :: m in SortMessages(ms) <==> m in ms
  {
    BeforeIsOrder();
    SortSorts(ms, Before);
    var r := SortMessages(ms);
    SameElements(r, ms);
    forall i, j | 0 <= i < j < |r| ensures KeyOf(r[i]) != KeyOf(r[j]) {
      AtMostOneWithKey(ms, KeyOf(r[i]));
      FilterSizeByMultiset(ms, r, HasKey(KeyOf(r[i])));
      if KeyOf(r[i]) == KeyOf(r[j]) { TwoWithKey(r, i, j); }
    }
  }

  lemma {:induction false} AtMostOneWithKey(ms: seq<Message>, key: string)
    requires DistinctKeys(ms)
    ensures |Filter(ms, HasKey(key))| <= 1
  {
    if ms != [] {
      var front, last := ms[..|ms| - 1], ms[|ms| - 1];
      AtMostOneWithKey(front, key);
      if KeyOf(last) == key {
        forall i | 0 <= i < |front| ensures !HasKey(key)(front[i]) {
          assert KeyOf(ms[i]) != KeyOf(ms[|ms| - 1]);
        }
        FilterNone(front, HasKey(key));
      }
    }
  }

  lemma TwoWithKey(r: seq<Message>, i: nat, j: nat)
    requires i < j < |r| && KeyOf(r[i]) == KeyOf(r[j])
    ensures |Filter(r, HasKey(KeyOf(r[i])))| >= 2
  {
    var p := HasKey(KeyOf(r[i]));
    assert r == r[..i] + [r[i]] + r[i + 1..j] + [r[j]] + r[j + 1..];
    FilterSnoc(r[..i], r[i], p);
    FilterConcat(r[..i] + [r[i]], r[i + 1..j], p);
    FilterSnoc(r[..i] + [r[i]] + r[i + 1..j], r[j], p);
    FilterConcat(r[..i] + [r[i]] + r[i + 1..j] + [r[j]], r[j + 1..], p);
  }

  /** A merge has one message per key, the last occurrence over both lists, and is sorted by timestamp and id. */
  lemma MergeMeaning(current: seq<Message>, older: seq<Message>)
    ensures var r := Merged(current, older);
      && DistinctKeys(r) && Sorted(r, Before)
      && (forall m :: m in r <==> LastWith(current + older, KeyOf(m)) == Some(m))
  {
    ByKeyMeaning(current + older);
    SortKeepsKeys(ByKey(current + older));
  }

  /** When a message was created: what Date.parse made of `created_at`, or 0 when that is absent. */
  function CreatedAt(m: Message): int {
    match m.createdAt
    case None => 0
    case Some(at) => at
  }

  /** Oldest first: by creation, and at the same instant by id. */
  ghost predicate Chronological(ms: seq<Message>) {
    forall i, j :: 0 <= i < j < |ms| ==>
      CreatedAt(ms[i]) < CreatedAt(ms[j]) || (CreatedAt(ms[i]) == CreatedAt(ms[j]) && ms[i].id <= ms[j].id)
  }

  lemma MergeIsChronological(current: seq<Message>, older: seq<Message>)
    ensures Chronological(Merged(current, older))
  {
    hide KeyOf, Merged;
    MergeMeaning(current, older);
    var r := Merged(current, older);
    forall i, j | 0 <= i < j < |r|
      ensures CreatedAt(r[i]) < CreatedAt(r[j]) || (CreatedAt(r[i]) == CreatedAt(r[j]) && r[i].id <= r[j].id)
    {
      assert !Before(r[j], r[i]);
    }
  }

  // ---------------------------------------------------------------- what a key is

  predicate AllWhite(s: string) {
    forall c :: c in s ==> IsWhite(c)
  }

  /** A guid with something in it is the key, without the white space around it; the id plays no part. */
  lemma KeyOfGuid(m: Message, left: string, core: string, right: string)
    requires m.guid == Some(left + core + right) && AllWhite(left) && AllWhite(right)
    requires core != "" && !IsWhite(core[0]) && !IsWhite(core[|core| - 1])
    ensures KeyOf(m) == core
  {
    hide IsWhite, Decimal;
    TrimTakesWhite(left, core, right);
  }

  lemma {:induction false} TrimTakesWhite(left: string, core: string, right: string)
    requires AllWhite(left) && AllWhite(right) && core != "" && !IsWhite(core[0]) && !IsWhite(core[|core| - 1])
    ensures Trim(left + core + right) == core
    decreases |left| + |right|
  {
    hide IsWhite;
    var s := left + core + right;
    if left != "" {
      assert s[0] == left[0] && left[0] in left;
      assert s[1..] == left[1..] + core + right;
      TrimTakesWhite(left[1..], core, right);
    } else if right != "" {
      assert s[|s| - 1] == right[|right| - 1] && right[|right| - 1] in right;
      assert s[..|s| - 1] == left + core + right[..|right| - 1];
      TrimTakesWhite(left, core, right[..|right| - 1]);
    } else {
      assert s == core;
    }
  }

  /** Without a guid, or with a blank one, the key is the id in decimal. */
  lemma KeyOfID(m: Message)
    requires m.guid.None? || AllWhite(m.guid.value)
    ensures KeyOf(m) == Decimal(m.id)
  {
    hide IsWhite, Decimal;
    if m.guid.Some? { TrimOfWhite(m.guid.value); }
  }

  lemma {:induction false} TrimOfWhite(s: string)
    requires AllWhite(s)
    ensures Trim(s) == ""
  {
    hide IsWhite;
    if s != "" {
      assert s[0] in s;
      TrimOfWhite(s[1..]);
    }
  }

  // ---------------------------------------------------------------- merging again

  ghost predicate Knows(entries: seq<Message>, key: string) {
    exists x :: x in entries && KeyOf(x) == key
  }

  lemma SameKeysKnow(a: seq<Message>, b: seq<Message>, key: string)
    requires |a| == |b| && (forall i :: 0 <= i < |a| ==> KeyOf(b[i]) == KeyOf(a[i])) && Knows(a, key)
    ensures Knows(b, key)
  {
    hide KeyOf;
    var x :| x in a && KeyOf(x) == key;
    var i :| 0 <= i < |a| && a[i] == x;
    assert b[i] in b;
  }

  lemma SetEntryInPlace(entries: seq<Message>, m: Message)
    requires Knows(entries, KeyOf(m))
    ensures |SetEntry(entries, m)| == |entries|
    ensures forall i :: 0 <= i < |entries| ==> KeyOf(SetEntry(entries, m)[i]) == KeyOf(entries[i])
  {
    var x :| x in entries && KeyOf(x) == KeyOf(m);
    var wanted := HasKey(KeyOf(m));
    var k :| 0 <= k < |entries| && entries[k] == x;
    assert wanted(entries[k]);
    var i := First(entries, wanted);
    if i < |entries| { assert wanted(entries[i]); }
  }

  /** Setting only keys that are already there keeps every key in its place. */
  lemma {:induction false} ByKeyInPlace(entries: seq<Message>, batch: seq<Message>)
    requires DistinctKeys(entries)
    requires forall b :: b in batch ==> Knows(entries, KeyOf(b))
    ensures |ByKey(entries + batch)| == |entries|
    ensures forall i :: 0 <= i < |entries| ==> KeyOf(ByKey(entries + batch)[i]) == KeyOf(entries[i])
  {
    hide KeyOf, SetEntry, Knows;
    if batch == [] {
      assert entries + batch == entries;
      ByKeyOfDistinct(entries);
    } else {
      var n := |batch| - 1;
      var front, b := batch[..n], batch[n];
      assert batch == front + [b];
      forall x | x in front ensures x in batch {}
      ByKeyInPlace(entries, front);
      assert (entries + batch)[..|entries + batch| - 1] == entries + front;
      var so := ByKey(entries + front);
      SameKeysKnow(entries, so, KeyOf(b));
      SetEntryInPlace(so, b);
    }
  }

  lemma {:induction false} ByKeyOfDistinct(entries: seq<Message>)
    requires DistinctKeys(entries)
    ensures ByKey(entries) == entries
  {
    hide KeyOf, SetEntry;
    if entries != [] {
      var front, last := entries[..|entries| - 1], entries[|entries| - 1];
      ByKeyOfDistinct(front);
      forall k | 0 <= k < |front| ensures KeyOf(front[k]) != KeyOf(last) {
        assert KeyOf(entries[k]) != KeyOf(entries[|entries| - 1]);
      }
      SetNew(front, last);
      assert entries == front + [last];
    }
  }

  lemma SetNew(entries: seq<Message>, m: Message)
    requires forall k :: 0 <= k < |entries| ==> KeyOf(entries[k]) != KeyOf(m)
    ensures SetEntry(entries, m) == entries + [m]
  {
    hide KeyOf;
    FirstIs(entries, HasKey(KeyOf(m)), |entries|);
  }

  /** Merging the same batch again changes nothing, ties included. */
  lemma MergeIsIdempotent(current: seq<Message>, batch: seq<Message>)
    ensures Merged(Merged(current, batch), batch) == Merged(current, batch)
  {
    hide SortMessages, ByKey, KeyOf;
    var m := Merged(current, batch);
    MergeMeaning(current, batch);
    forall b | b in batch ensures Knows(m, KeyOf(b)) {
      LastWithIsThere(current + batch, KeyOf(b));
      assert b in current + batch;
      var x := LastWith(current + batch, KeyOf(b)).value;
      assert x in m;
    }
    ByKeyInPlace(m, batch);
    ByKeyMeaning(m + batch);
    var again := ByKey(m + batch);
    forall i | 0 <= i < |m| ensures again[i] == m[i] {
      var key := KeyOf(m[i]);
      assert again[i] in again && m[i] in m;
      LastWithConcat(m, batch, key);
      LastWithConcat(current, batch, key);
      LastWithDistinct(m, m[i]);
    }
    assert again == m;
    SortOfMerged(m);
  }

  lemma SortOfMerged(m: seq<Message>)
    requires Sorted(m, Before)
    ensures SortMessages(m) == m
  {
    SortOfSorted(m, Before);
  }

  /** A merge holds the last message of each key, so looking a key up in it is looking it up in both lists. */
  lemma LastOfMerged(current: seq<Message>, first: seq<Message>, key: string)
    ensures LastWith(Merged(current, first), key) == LastWith(current + first, key)
  {
    hide KeyOf, Merged;
    var f := Merged(current, first);
    MergeMeaning(current, first);
    LastWithIsThere(f, key);
    LastWithIsThere(current + first, key);
    var l := LastWith(current + first, key);
    if l.Some? {
      assert l.value in f;
      LastWithDistinct(f, l.value);
    }
  }
}
