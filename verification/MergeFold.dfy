/**
 Messages merged one at a time, as live events are (`applyIncomingMessage` of web/src/App.tsx), against the same
 messages merged all at once.  Where messages of different keys share timestamp and id, the two can order them
 differently.
*/
module MergeFold {
  import opened Basics
  import opened Sorting
  import opened Merge

  /** Live events: each message merged as it arrives. */
  function FoldMerge(current: seq<Message>, batch: seq<Message>): seq<Message> {
    if batch == [] then current
    else Merged(FoldMerge(current, batch[..|batch| - 1]), [batch[|batch| - 1]])
  }

  // ---------------------------------------------------------------- order of keys

  ghost predicate Occurs(ms: seq<Message>, key: string) {
    LastWith(ms, key).Some?
  }

  /** Both keys occur, and the first message with `k` comes before the first with `l`. */
  predicate Leads(ms: seq<Message>, k: string, l: string) {
    First(ms, HasKey(k)) < First(ms, HasKey(l)) < |ms|
  }

  lemma OccursFirst(ms: seq<Message>, key: string)
    ensures Occurs(ms, key) <==> First(ms, HasKey(key)) < |ms|
  {
    hide KeyOf;
    LastWithIsThere(ms, key);
    if Occurs(ms, key) {
      var i :| 0 <= i < |ms| && ms[i] == LastWith(ms, key).value;
      assert HasKey(key)(ms[i]);
    } else {
      FirstIs(ms, HasKey(key), |ms|);
    }
  }

  lemma LeadsOccurs(ms: seq<Message>, k: string, l: string)
    ensures Leads(ms, k, l) ==> Occurs(ms, k) && Occurs(ms, l)
  {
    hide First, LastWith;
    OccursFirst(ms, k);
    OccursFirst(ms, l);
  }

  lemma FirstSnoc(ms: seq<Message>, m: Message, key: string)
    ensures var i := First(ms, HasKey(key));
      First(ms + [m], HasKey(key)) == if i < |ms| then i else if KeyOf(m) == key then |ms| else |ms| + 1
  {
    hide KeyOf;
    var i := First(ms, HasKey(key));
    var r := ms + [m];
    assert forall k :: 0 <= k < |ms| ==> r[k] == ms[k];
    FirstIs(r, HasKey(key), if i < |ms| then i else if KeyOf(m) == key then |ms| else |ms| + 1);
  }

  lemma FirstSet(entries: seq<Message>, m: Message, key: string)
    ensures var i := First(entries, HasKey(key));
      var after := SetEntry(entries, m);
      && |after| == |entries| + (if First(entries, HasKey(KeyOf(m))) < |entries| then 0 else 1)
      && First(after, HasKey(key)) == if i < |entries| then i else if KeyOf(m) == key then |entries| else |after|
  {
    hide KeyOf;
    var i, at := First(entries, HasKey(key)), First(entries, HasKey(KeyOf(m)));
    var after := SetEntry(entries, m);
    if at < |entries| {
      assert forall k :: 0 <= k < |entries| ==> HasKey(key)(after[k]) == HasKey(key)(entries[k]);
      FirstIs(after, HasKey(key), i);
    } else {
      FirstSnoc(entries, m, key);
    }
  }

  /** The map orders keys by their first occurrence. */
  lemma {:induction false} LeadsByKey(ms: seq<Message>, k: string, l: string)
    requires k != l
    ensures Leads(ByKey(ms), k, l) <==> Leads(ms, k, l)
    ensures Occurs(ByKey(ms), k) <==> Occurs(ms, k)
    ensures Occurs(ByKey(ms), l) <==> Occurs(ms, l)
  {
    hide KeyOf, SetEntry, LastWith, First;
    if ms != [] {
      var front, last := ms[..|ms| - 1], ms[|ms| - 1];
      LeadsByKey(front, k, l);
      assert ms == front + [last];
      FirstSnoc(front, last, k);
      FirstSnoc(front, last, l);
      FirstSet(ByKey(front), last, k);
      FirstSet(ByKey(front), last, l);
      OccursFirst(front, k);
      OccursFirst(front, l);
      OccursFirst(ByKey(front), k);
      OccursFirst(ByKey(front), l);
      OccursFirst(ms, k);
      OccursFirst(ms, l);
      OccursFirst(ByKey(ms), k);
      OccursFirst(ByKey(ms), l);
    }
  }

  lemma LeadsSnoc(ms: seq<Message>, m: Message, k: string, l: string)
    requires k != l
    ensures Leads(ms + [m], k, l) <==> Leads(ms, k, l) || (Occurs(ms, k) && !Occurs(ms, l) && KeyOf(m) == l)
  {
    hide KeyOf, LastWith, First;
    FirstSnoc(ms, m, k);
    FirstSnoc(ms, m, l);
    OccursFirst(ms, k);
    OccursFirst(ms, l);
  }

  /** Where keys are distinct, the order of keys is the order of their messages. */
  lemma LeadsIsAhead(ms: seq<Message>, x: Message, y: Message)
    requires DistinctKeys(ms) && x in ms && y in ms
    ensures Leads(ms, KeyOf(x), KeyOf(y)) <==> Ahead(ms, x, y)
  {
    hide KeyOf;
    var i :| 0 <= i < |ms| && ms[i] == x;
    var j :| 0 <= j < |ms| && ms[j] == y;
    FirstIs(ms, HasKey(KeyOf(x)), i);
    FirstIs(ms, HasKey(KeyOf(y)), j);
    if Ahead(ms, x, y) {
      var p, q :| 0 <= p < q < |ms| && ms[p] == x && ms[q] == y;
      assert p == i && q == j;
    }
  }

  lemma KeysMakeDistinct(ms: seq<Message>)
    requires DistinctKeys(ms)
    ensures Distinct(ms) && forall x, y :: Ahead(ms, x, y) ==> x in ms && y in ms && KeyOf(x) != KeyOf(y)
  {
    hide KeyOf;
    forall i, j | 0 <= i < j < |ms| ensures ms[i] != ms[j] {
      assert KeyOf(ms[i]) != KeyOf(ms[j]);
    }
  }

  /** After the sort, a message leads another if it is before it, or ties with it and led before the sort. */
  lemma LeadsAfterSort(ms: seq<Message>, x: Message, y: Message)
    requires DistinctKeys(ms) && x in ms && y in ms && KeyOf(x) != KeyOf(y)
    ensures Leads(SortMessages(ms), KeyOf(x), KeyOf(y))
      <==> Before(x, y) || (!Before(y, x) && Leads(ms, KeyOf(x), KeyOf(y)))
  {
    hide KeyOf, Before, Leads, Sort;
    var r := SortMessages(ms);
    SortKeepsKeys(ms);
    BeforeIsOrder();
    KeysMakeDistinct(r);
    LeadsIsAhead(ms, x, y);
    LeadsIsAhead(r, x, y);
    OneIsAhead(ms, x, y);
    OneIsAhead(r, x, y);
    if Ahead(ms, x, y) && !Before(y, x) { SortIsStable(ms, Before, x, y); }
    if Ahead(ms, y, x) && !Before(x, y) { SortIsStable(ms, Before, y, x); }
    SortedAhead(r, x, y);
    SortedAhead(r, y, x);
  }

  lemma OneIsAhead(ms: seq<Message>, x: Message, y: Message)
    requires DistinctKeys(ms) && x in ms && y in ms && x != y
    ensures Ahead(ms, x, y) <==> !Ahead(ms, y, x)
  {
    hide KeyOf;
    KeysMakeDistinct(ms);
    var i :| 0 <= i < |ms| && ms[i] == x;
    var j :| 0 <= j < |ms| && ms[j] == y;
    assert i < j ==> Ahead(ms, x, y);
    assert j < i ==> Ahead(ms, y, x);
  }

  lemma SortedAhead(ms: seq<Message>, x: Message, y: Message)
    requires Sorted(ms, Before)
    ensures Ahead(ms, x, y) ==> !Before(y, x)
  {
  }

  // ---------------------------------------------------------------- the two ways of merging

  /** A merge orders two keys by their last messages; where these tie, by first occurrence over both lists. */
  lemma MergedOrder(current: seq<Message>, older: seq<Message>, k: string, l: string)
    requires k != l
    ensures var (x, y) := (LastWith(current + older, k), LastWith(current + older, l));
      Leads(Merged(current, older), k, l) <==>
        x.Some? && y.Some?
        && (Before(x.value, y.value) || (!Before(y.value, x.value) && Leads(current + older, k, l)))
  {
    hide KeyOf, Before, Leads, SortMessages, ByKey;
    var all := current + older;
    var entries := ByKey(all);
    var (x, y) := (LastWith(all, k), LastWith(all, l));
    ByKeyMeaning(all);
    LastWithIsThere(all, k);
    LastWithIsThere(all, l);
    if x.Some? && y.Some? {
      LeadsByKey(all, k, l);
      LeadsAfterSort(entries, x.value, y.value);
    } else {
      LastOfMerged(current, older, k);
      LastOfMerged(current, older, l);
      LeadsOccurs(Merged(current, older), k, l);
    }
  }

  /** How the last messages of two keys compared when they last differed, after some message of the batch. */
  function LastStrict(current: seq<Message>, batch: seq<Message>, k: string, l: string): Option<bool> {
    if batch == [] then None
    else
      var (x, y) := (LastWith(current + batch, k), LastWith(current + batch, l));
      if x.Some? && y.Some? && (Before(x.value, y.value) || Before(y.value, x.value))
      then Some(Before(x.value, y.value))
      else LastStrict(current, batch[..|batch| - 1], k, l)
  }

  lemma {:induction false} LastStrictOccurs(current: seq<Message>, batch: seq<Message>, k: string, l: string)
    requires LastStrict(current, batch, k, l).Some?
    ensures Occurs(current + batch, k) && Occurs(current + batch, l)
  {
    hide Before, LastWith;
    var front, last := batch[..|batch| - 1], batch[|batch| - 1];
    assert batch == front + [last];
    if LastStrict(current, batch, k, l) == LastStrict(current, front, k, l) && LastStrict(current, front, k, l).Some? {
      LastStrictOccurs(current, front, k, l);
      OccursSnoc(current + front, last, k);
      OccursSnoc(current + front, last, l);
      assert current + batch == (current + front) + [last];
    }
  }

  lemma OccursSnoc(ms: seq<Message>, m: Message, key: string)
    ensures Occurs(ms + [m], key) <==> Occurs(ms, key) || KeyOf(m) == key
  {
    hide KeyOf;
    assert (ms + [m])[..|ms|] == ms;
  }

  lemma {:induction false} FoldLast(current: seq<Message>, batch: seq<Message>, key: string)
    ensures LastWith(FoldMerge(current, batch), key) == LastWith(current + batch, key)
  {
    hide KeyOf, LastWith, Merged;
    if batch == [] {
      assert current + batch == current;
    } else {
      var front, last := batch[..|batch| - 1], batch[|batch| - 1];
      FoldLast(current, front, key);
      LastOfMerged(FoldMerge(current, front), [last], key);
      LastWithConcat(FoldMerge(current, front), [last], key);
      LastWithConcat(current + front, [last], key);
      assert current + batch == (current + front) + [last];
    }
  }

  /** Folding orders two keys as their last messages compared when these last differed, else by first occurrence. */
  lemma {:induction false} FoldOrder(current: seq<Message>, batch: seq<Message>, k: string, l: string)
    requires k != l
    ensures Leads(FoldMerge(current, batch), k, l) <==>
      match LastStrict(current, batch, k, l)
      case Some(before) => before
      case None => Leads(current + batch, k, l)
  {
    hide KeyOf, Before, Leads, Merged, LastWith;
    if batch == [] {
      assert current + batch == current;
    } else {
      var front, last := batch[..|batch| - 1], batch[|batch| - 1];
      var f, all := FoldMerge(current, front), current + front;
      assert current + batch == all + [last];
      FoldOrder(current, front, k, l);
      FoldLast(current, batch, k);
      FoldLast(current, batch, l);
      LastOfMerged(f, [last], k);
      LastOfMerged(f, [last], l);
      MergedOrder(f, [last], k, l);
      LeadsOccurs(current + batch, k, l);
      LeadsSnoc(f, last, k, l);
      LeadsSnoc(all, last, k, l);
      FoldLast(current, front, k);
      FoldLast(current, front, l);
      LeadsOccurs(f, k, l);
      if LastStrict(current, front, k, l).Some? { LastStrictOccurs(current, front, k, l); }
      if LastStrict(current, batch, k, l).Some? { LastStrictOccurs(current, batch, k, l); }
    }
  }

  /** The last messages of both keys share timestamp and id. */
  ghost predicate Tied(ms: seq<Message>, k: string, l: string) {
    var (x, y) := (LastWith(ms, k), LastWith(ms, l));
    x.Some? && y.Some? && !Before(x.value, y.value) && !Before(y.value, x.value)
  }

  /**
   Wherever the last messages of two keys tie in the end, and did not tie at some point of the batch, the last such
   point ordered the keys as they first occurred.
  */
  ghost predicate TiesAgree(current: seq<Message>, batch: seq<Message>) {
    forall k, l :: k != l && Tied(current + batch, k, l) ==>
      match LastStrict(current, batch, k, l)
      case Some(before) => before == Leads(current + batch, k, l)
      case None => true
  }

  /** Folding a non-empty batch in one event at a time equals merging it at once, exactly when the ties agree. */
  lemma FoldEqualsMergeExactly(current: seq<Message>, batch: seq<Message>)
    requires batch != []
    ensures FoldMerge(current, batch) == Merged(current, batch) <==> TiesAgree(current, batch)
  {
    hide KeyOf, Before, Leads, Merged, LastWith, FoldMerge;
    var f, m := FoldMerge(current, batch), Merged(current, batch);
    forall k, l | k != l
      ensures (Leads(f, k, l) <==> Leads(m, k, l)) <==>
        (Tied(current + batch, k, l) ==>
          match LastStrict(current, batch, k, l)
          case Some(before) => before == Leads(current + batch, k, l)
          case None => true)
    {
      FoldOrder(current, batch, k, l);
      MergedOrder(current, batch, k, l);
      LeadsOccurs(current + batch, k, l);
      if LastStrict(current, batch, k, l).Some? { LastStrictOccurs(current, batch, k, l); }
    }
    if TiesAgree(current, batch) {
      SameLeads(current, batch);
    }
  }

  lemma SameLeads(current: seq<Message>, batch: seq<Message>)
    requires batch != []
    requires forall k, l :: k != l ==>
      (Leads(FoldMerge(current, batch), k, l) <==> Leads(Merged(current, batch), k, l))
    ensures FoldMerge(current, batch) == Merged(current, batch)
  {
    hide KeyOf, Before, Leads, Merged, LastWith;
    var f, m := FoldMerge(current, batch), Merged(current, batch);
    MergeMeaning(FoldMerge(current, batch[..|batch| - 1]), [batch[|batch| - 1]]);
    MergeMeaning(current, batch);
    KeysMakeDistinct(f);
    KeysMakeDistinct(m);
    forall x ensures x in f <==> x in m {
      LastWithDistinct(f, x);
      LastWithDistinct(m, x);
      FoldLast(current, batch, KeyOf(x));
    }
    forall x, y ensures Ahead(f, x, y) <==> Ahead(m, x, y) {
      if x in f && y in f && KeyOf(x) != KeyOf(y) {
        LeadsIsAhead(f, x, y);
        LeadsIsAhead(m, x, y);
      }
    }
    SameOrder(f, m);
  }

  /** Messages with different keys never share timestamp and id. */
  ghost predicate NoTies(ms: seq<Message>) {
    forall a, b :: a in ms && b in ms && KeyOf(a) != KeyOf(b) ==> Before(a, b) || Before(b, a)
  }

  /** In particular the two agree where different keys never tie. */
  lemma FoldEqualsMerge(current: seq<Message>, batch: seq<Message>)
    requires batch != [] && NoTies(current + batch)
    ensures FoldMerge(current, batch) == Merged(current, batch)
  {
    hide KeyOf, Before, Leads, Merged, LastWith, FoldMerge;
    FoldEqualsMergeExactly(current, batch);
    forall k, l | k != l ensures !Tied(current + batch, k, l) {
      LastWithIsThere(current + batch, k);
      LastWithIsThere(current + batch, l);
    }
  }

  lemma LettersStay()
    ensures Trim("a") == "a" && Trim("b") == "b"
  {
  }

  /** With ties the two can differ: a message moved to another's timestamp and id keeps its old place in just one. */
  lemma FoldDiffersOnTies()
    ensures exists batch :: FoldMerge([], batch) != Merged([], batch)
  {
    hide FoldMerge, Merged, Decimal, Trim;
    var a5 := Message(1, Some("a"), Some(5), "");
    var b3 := Message(1, Some("b"), Some(3), "");
    var a3 := Message(1, Some("a"), Some(3), "");
    LettersStay();
    MovedOntoAnother(a5, b3, a3);
  }

  lemma LastWithSnoc(ms: seq<Message>, m: Message, key: string)
    ensures LastWith(ms + [m], key) == if KeyOf(m) == key then Some(m) else LastWith(ms, key)
  {
    hide KeyOf;
    assert (ms + [m])[..|ms|] == ms;
  }

  lemma LastsOfThree(x: Message, y: Message, z: Message)
    requires KeyOf(x) == KeyOf(z) != KeyOf(y)
    ensures var (k, l) := (KeyOf(x), KeyOf(y));
      && LastWith([x, y], k) == Some(x) && LastWith([x, y], l) == Some(y)
      && LastWith([x, y, z], k) == Some(z) && LastWith([x, y, z], l) == Some(y)
      && Leads([x, y, z], k, l)
  {
    hide KeyOf, LastWith;
    var none: seq<Message> := [];
    var (k, l) := (KeyOf(x), KeyOf(y));
    assert none + [x] == [x] && [x] + [y] == [x, y] && [x, y] + [z] == [x, y, z];
    LastWithSnoc(none, x, k);
    LastWithSnoc([x], y, k);
    LastWithSnoc([x], y, l);
    LastWithSnoc([x, y], z, k);
    LastWithSnoc([x, y], z, l);
    FirstIs([x, y, z], HasKey(k), 0);
    FirstIs([x, y, z], HasKey(l), 1);
  }

  lemma MovedOntoAnother(a5: Message, b3: Message, a3: Message)
    requires KeyOf(a5) == KeyOf(a3) != KeyOf(b3)
    requires Before(b3, a5) && !Before(a3, b3) && !Before(b3, a3)
    ensures FoldMerge([], [a5, b3, a3]) != Merged([], [a5, b3, a3])
  {
    hide KeyOf, Before, Merged, FoldMerge, LastWith, Leads;
    var none: seq<Message>, two, three := [], [a5, b3], [a5, b3, a3];
    var (k, l) := (KeyOf(a5), KeyOf(b3));
    assert three[..2] == two && none + two == two && none + three == three;
    LastsOfThree(a5, b3, a3);
    BeforeIsOrder();
    assert LastStrict(none, three, k, l) == LastStrict(none, two, k, l) == Some(false);
    assert Tied(none + three, k, l);
    FoldEqualsMergeExactly(none, three);
  }
}
