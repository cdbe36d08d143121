/** Strings as Go's strings package treats them: white space, trimming, byte order. */
module Text {
  import opened Sorting

  /** unicode.IsSpace. */
  predicate IsSpace(c: char) {
    || '\U{0009}' <= c <= '\U{000D}'
    || c == ' ' || c == '\U{0085}' || c == '\U{00A0}' || c == '\U{1680}'
    || '\U{2000}' <= c <= '\U{200A}'
    || c == '\U{2028}' || c == '\U{2029}' || c == '\U{202F}' || c == '\U{205F}' || c == '\U{3000}'
  }

  function TrimLeft(s: string): string {
    if s != [] && IsSpace(s[0]) then TrimLeft(s[1..]) else s
  }

  function TrimRight(s: string): string {
    if s != [] && IsSpace(s[|s| - 1]) then TrimRight(s[..|s| - 1]) else s
  }

  function TrimSpace(s: string): string {
    TrimRight(TrimLeft(s))
  }

  /** No space at either end. */
  predicate Trimmed(s: string) {
    s == [] || (!IsSpace(s[0]) && !IsSpace(s[|s| - 1]))
  }

  lemma {:induction false} TrimLeftFront(s: string)
    ensures var r := TrimLeft(s); r == [] || !IsSpace(r[0])
  {
    if s != [] && IsSpace(s[0]) { TrimLeftFront(s[1..]); }
  }

  lemma {:induction false} TrimRightEnds(s: string)
    requires s == [] || !IsSpace(s[0])
    ensures Trimmed(TrimRight(s))
  {
    if s != [] && IsSpace(s[|s| - 1]) { TrimRightEnds(s[..|s| - 1]); }
  }

  lemma TrimIsTrimmed(s: string)
    ensures Trimmed(TrimSpace(s))
  {
    TrimLeftFront(s);
    TrimRightEnds(TrimLeft(s));
  }

  lemma TrimOfTrimmed(s: string)
    requires Trimmed(s)
    ensures TrimSpace(s) == s
  {
  }

  /** Nothing but spaces. */
  predicate Blank(s: string) {
    forall c :: c in s ==> IsSpace(c)
  }

  /** Trimming takes the spaces from both ends, and nothing else. */
  lemma {:induction false} TrimAround(left: string, s: string, right: string)
    requires s != [] && !IsSpace(s[0]) && !IsSpace(s[|s| - 1])
    requires forall c :: c in left + right ==> IsSpace(c)
    ensures TrimSpace(left + s + right) == s
    decreases |left|
  {
    if left == "" {
      assert left + s + right == s + right;
      TrimAfter(s, right);
    } else {
      assert left[0] in left + right;
      assert (left + s + right)[1..] == left[1..] + s + right;
      forall c | c in left[1..] + right ensures IsSpace(c) { assert c in left + right; }
      TrimAround(left[1..], s, right);
    }
  }

  lemma {:induction false} TrimAfter(s: string, right: string)
    requires s != [] && !IsSpace(s[|s| - 1])
    requires forall c :: c in right ==> IsSpace(c)
    ensures TrimRight(s + right) == s
  {
    if right == "" {
      assert s + right == s;
    } else {
      var front := right[..|right| - 1];
      assert right[|right| - 1] in right;
      assert (s + right)[..|s + right| - 1] == s + front;
      TrimAfter(s, front);
    }
  }

  /** Trimming leaves nothing exactly of strings that are nothing but spaces. */
  lemma BlankTrims(s: string)
    ensures TrimSpace(s) == "" <==> Blank(s)
  {
    LeftOfBlank(s);
    RightOfBlank(TrimLeft(s));
    if TrimLeft(s) != "" {
      TrimLeftFront(s);
      assert TrimLeft(s)[0] in TrimLeft(s);
    }
  }

  lemma {:induction false} LeftOfBlank(s: string)
    ensures TrimLeft(s) == "" <==> Blank(s)
  {
    if s != "" {
      LeftOfBlank(s[1..]);
      assert s == [s[0]] + s[1..];
      assert s[0] in s;
    }
  }

  lemma {:induction false} RightOfBlank(s: string)
    ensures TrimRight(s) == "" <==> Blank(s)
  {
    if s != "" {
      var n := |s| - 1;
      RightOfBlank(s[..n]);
      assert s == s[..n] + [s[n]];
      assert s[n] in s;
    }
  }

  /** The order of slices.Sort on strings: bytewise, which in UTF-8 is by code point. */
  predicate Less(a: string, b: string) {
    if b == [] then false
    else if a == [] then true
    else a[0] < b[0] || (a[0] == b[0] && Less(a[1..], b[1..]))
  }

  lemma {:induction false} LessIrreflexive(a: string)
    ensures !Less(a, a)
  {
    if a != [] { LessIrreflexive(a[1..]); }
  }

  lemma {:induction false} LessTotal(a: string, b: string)
    ensures Less(a, b) || Less(b, a) || a == b
  {
    if a != [] && b != [] && a[0] == b[0] {
      LessTotal(a[1..], b[1..]);
      assert a == [a[0]] + a[1..] && b == [b[0]] + b[1..];
    }
  }

  lemma {:induction false} LessAsymmetric(a: string, b: string)
    requires Less(a, b)
    ensures !Less(b, a)
  {
    if a != [] && a[0] == b[0] { LessAsymmetric(a[1..], b[1..]); }
  }

  lemma {:induction false} LessBetween(a: string, b: string, c: string)
    requires Less(a, c)
    ensures Less(a, b) || Less(b, c)
  {
    if a != [] && b != [] && a[0] == c[0] == b[0] { LessBetween(a[1..], b[1..], c[1..]); }
  }

  lemma LessIsOrder()
    ensures WeakOrder(Less)
  {
    forall a, b | Less(a, b) ensures !Less(b, a) { LessAsymmetric(a, b); }
    forall a, b, c | Less(a, c) ensures Less(a, b) || Less(b, c) { LessBetween(a, b, c); }
  }

  /** The strings agree up to `k`; there the first is over and the second goes on, or has the smaller character. */
  predicate FirstDifferAt(a: string, b: string, k: nat) {
    && k <= |a| && k < |b| && a[..k] == b[..k]
    && (k < |a| ==> a[k] < b[k])
  }

  lemma {:induction false} LessMeans(a: string, b: string)
    ensures Less(a, b) <==> exists k :: FirstDifferAt(a, b, k)
  {
    if b == [] {
    } else if a == [] {
      assert FirstDifferAt(a, b, 0);
    } else if a[0] == b[0] {
      LessMeans(a[1..], b[1..]);
      if k: nat :| FirstDifferAt(a[1..], b[1..], k) {
        assert a[..k + 1] == [a[0]] + a[1..][..k] && b[..k + 1] == [b[0]] + b[1..][..k];
        assert FirstDifferAt(a, b, k + 1);
      }
      if k: nat :| FirstDifferAt(a, b, k) {
        assert k > 0;
        assert a[1..][..k - 1] == a[..k][1..] && b[1..][..k - 1] == b[..k][1..];
        assert FirstDifferAt(a[1..], b[1..], k - 1);
      }
    } else {
      if a[0] < b[0] { assert FirstDifferAt(a, b, 0); }
      if k: nat :| FirstDifferAt(a, b, k) {
        if k > 0 { assert a[..k][0] == b[..k][0]; }
      }
    }
  }
}
