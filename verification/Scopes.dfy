/** Scope lists: `cleanScopes` and `scopesSubset` of internal/auth/pairing.go. */
module Scopes {
  import opened Sorting
  import opened Text

  /** The set a scope list stands for. */
  function SetOf(scopes: seq<string>): set<string> {
    set s | s in scopes
  }

  /** The distinct non-blank trimmed scopes, in order of first occurrence. */
  function Collect(scopes: seq<string>): seq<string> {
    if scopes == [] then []
    else
      var before := Collect(scopes[..|scopes| - 1]);
      var scope := TrimSpace(scopes[|scopes| - 1]);
      if scope == "" || scope in before then before else before + [scope]
  }

  function Clean(scopes: seq<string>): seq<string> {
    Sort(Collect(scopes), Less)
  }

  method CleanScopes(scopes: seq<string>) returns (cleaned: seq<string>)
    ensures cleaned == Clean(scopes)
  {
    if |scopes| == 0 {
      return [];
    }
    var seen: set<string> := {};
    cleaned := [];
    var i := 0;
    while i < |scopes|
      invariant 0 <= i <= |scopes|
      invariant cleaned == Collect(scopes[..i])
      invariant forall s :: s in seen <==> s in cleaned
    {
      assert scopes[..i + 1][..i] == scopes[..i];
      var scope := TrimSpace(scopes[i]);
      i := i + 1;
      if scope == "" {
        continue;
      }
      if scope in seen {
        continue;
      }
      seen := seen + {scope};
      cleaned := cleaned + [scope];
    }
    assert scopes[..i] == scopes;
    cleaned := Sort(cleaned, Less);
  }

  /** `x` is a non-blank scope of the list, once trimmed. */
  ghost predicate Mentions(scopes: seq<string>, x: string) {
    x != "" && exists y :: y in scopes && TrimSpace(y) == x
  }

  lemma {:induction false} CollectMeaning(scopes: seq<string>)
    ensures Distinct(Collect(scopes))
    ensures forall x :: x in Collect(scopes) <==> Mentions(scopes, x)
  {
    if scopes != [] {
      var front, last := scopes[..|scopes| - 1], scopes[|scopes| - 1];
      CollectMeaning(front);
      assert scopes == front + [last];
      assert forall y :: y in scopes <==> y in front || y == last;
    }
  }

  /** `x` is mentioned at `i` and neither there nor before is `y`. */
  ghost predicate MentionedFirst(scopes: seq<string>, x: string, y: string, i: nat) {
    i < |scopes| && TrimSpace(scopes[i]) == x && forall k :: 0 <= k <= i ==> TrimSpace(scopes[k]) != y
  }

  /** Before sorting, the order is that of first mention. */
  lemma {:induction false} CollectOrder(scopes: seq<string>, x: string, y: string)
    requires Ahead(Collect(scopes), x, y)
    ensures exists i :: MentionedFirst(scopes, x, y, i)
  {
    hide TrimSpace;
    if scopes != [] {
      var n := |scopes| - 1;
      var front, scope := scopes[..n], TrimSpace(scopes[n]);
      var before := Collect(front);
      CollectMeaning(front);
      assert Collect(scopes) == before || Collect(scopes) == before + [scope];
      if Collect(scopes) != before { AheadAppend(before, scope, x, y); }
      if Ahead(before, x, y) {
        CollectOrder(front, x, y);
        var i :| MentionedFirst(front, x, y, i);
        assert MentionedFirst(scopes, x, y, i);
      } else {
        var z :| z in front && TrimSpace(z) == x;
        var i :| 0 <= i < |front| && front[i] == z;
        assert y !in before;
        forall k | 0 <= k <= i ensures TrimSpace(scopes[k]) != y {
          assert front[k] in front;
        }
        assert MentionedFirst(scopes, x, y, i);
      }
    }
  }

  /** A cleaned list is strictly increasing and holds exactly the non-blank trimmed scopes of its input. */
  lemma CleanMeaning(scopes: seq<string>)
    ensures StrictlySorted(Clean(scopes), Less)
    ensures forall x :: x in Clean(scopes) <==> Mentions(scopes, x)
  {
    var c := Collect(scopes);
    CollectMeaning(scopes);
    LessIsOrder();
    SortSorts(c, Less);
    var r := Sort(c, Less);
    SameElements(r, c);
    forall i, j | 0 <= i < j < |r| ensures Less(r[i], r[j]) || Less(r[j], r[i]) {
      DistinctByMultiset(c, r);
      LessTotal(r[i], r[j]);
    }
    SortedWithoutTies(r, Less);
  }

  lemma DistinctByMultiset(a: seq<string>, b: seq<string>)
    requires Distinct(a) && multiset(a) == multiset(b)
    ensures Distinct(b)
  {
    forall i, j | 0 <= i < j < |b| ensures b[i] != b[j] {
      AtMostOnce(a, b[i]);
      assert b == b[..i] + [b[i]] + b[i + 1..j] + [b[j]] + b[j + 1..];
    }
  }

  lemma {:induction false} AtMostOnce(a: seq<string>, x: string)
    requires Distinct(a)
    ensures multiset(a)[x] <= 1
  {
    if a != [] {
      var front, last := a[..|a| - 1], a[|a| - 1];
      AtMostOnce(front, x);
      assert a == front + [last];
      assert last !in front;
      assert last !in multiset(front);
    }
  }

  /** Cleaning depends only on the trimmed, non-blank content, so cleaning twice is cleaning once. */
  lemma CleanByContent(a: seq<string>, b: seq<string>)
    requires forall x :: Mentions(a, x) <==> Mentions(b, x)
    ensures Clean(a) == Clean(b)
  {
    CleanMeaning(a);
    CleanMeaning(b);
    LessIsOrder();
    StrictlySortedUnique(Clean(a), Clean(b), Less);
  }

  lemma CleanIsIdempotent(scopes: seq<string>)
    ensures Clean(Clean(scopes)) == Clean(scopes)
  {
    CleanMeaning(scopes);
    var c := Clean(scopes);
    CleanIsTrimmed(scopes);
    forall x ensures Mentions(c, x) <==> Mentions(scopes, x) {
      forall y | y in c ensures TrimSpace(y) == y { TrimOfTrimmed(y); }
      if Mentions(scopes, x) { assert x in c && TrimSpace(x) == x; }
    }
    CleanByContent(c, scopes);
  }

  /** Every scope of a trimmed, non-blank list survives cleaning and nothing is added. */
  lemma CleanKeepsSet(scopes: seq<string>)
    requires forall s :: s in scopes ==> Trimmed(s) && s != ""
    ensures SetOf(Clean(scopes)) == SetOf(scopes)
  {
    CleanMeaning(scopes);
    forall x ensures x in Clean(scopes) <==> x in scopes {
      forall y | y in scopes ensures TrimSpace(y) == y { TrimOfTrimmed(y); }
    }
  }

  /** Cleaned lists are made of trimmed, non-blank scopes. */
  lemma CleanIsTrimmed(scopes: seq<string>)
    ensures forall s :: s in Clean(scopes) ==> Trimmed(s) && s != ""
  {
    CleanMeaning(scopes);
    forall s | s in Clean(scopes) ensures Trimmed(s) {
      var z :| z in scopes && TrimSpace(z) == s;
      TrimIsTrimmed(z);
    }
  }

  method ScopesSubset(want: seq<string>, have: seq<string>) returns (r: bool)
    ensures r <==> SetOf(want) <= SetOf(have)
  {
    var allowed: set<string> := {};
    var i := 0;
    while i < |have|
      invariant 0 <= i <= |have|
      invariant allowed == SetOf(have[..i])
    {
      allowed := allowed + {have[i]};
      i := i + 1;
    }
    assert have[..i] == have;
    i := 0;
    while i < |want|
      invariant 0 <= i <= |want|
      invariant forall k :: 0 <= k < i ==> want[k] in allowed
    {
      if want[i] !in allowed {
        assert want[i] in SetOf(want);
        return false;
      }
      i := i + 1;
    }
    return true;
  }
}
