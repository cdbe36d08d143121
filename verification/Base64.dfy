/** base64.RawURLEncoding: the URL-safe alphabet of section 5 of RFC 4648, without padding. */
module Base64 {
  import opened Basics
  import opened Text

  newtype Byte = b: int | 0 <= b < 256

  type Bytes = seq<Byte>

  newtype Sextet = v: int | 0 <= v < 64

  function Digit(v: Sextet): (c: char) {
    if v < 26 then 'A' + (v as char)
    else if v < 52 then 'a' + ((v - 26) as char)
    else if v < 62 then '0' + ((v - 52) as char)
    else if v == 62 then '-'
    else '_'
  }

  function Value(c: char): Option<Sextet> {
    if 'A' <= c <= 'Z' then Some((c as int - 'A' as int) as Sextet)
    else if 'a' <= c <= 'z' then Some((c as int - 'a' as int + 26) as Sextet)
    else if '0' <= c <= '9' then Some((c as int - '0' as int + 52) as Sextet)
    else if c == '-' then Some(62)
    else if c == '_' then Some(63)
    else None
  }

  lemma ValueOfDigit(v: Sextet)
    ensures Value(Digit(v)) == Some(v)
  {
  }

  /** The bits of three bytes in four sextets, most significant first. */
  function Split(b: Byte, c: Byte, d: Byte): (Sextet, Sextet, Sextet, Sextet) {
    var (b, c, d) := (b as int, c as int, d as int);
    ((b / 4) as Sextet, (b % 4 * 16 + c / 16) as Sextet, (c % 16 * 4 + d / 64) as Sextet, (d % 64) as Sextet)
  }

  function Join(v: Sextet, w: Sextet, x: Sextet, y: Sextet): (Byte, Byte, Byte) {
    var (v, w, x, y) := (v as int, w as int, x as int, y as int);
    ((v * 4 + w / 16) as Byte, (w % 16 * 16 + x / 4) as Byte, (x % 4 * 64 + y) as Byte)
  }

  lemma JoinOfSplit(b: Byte, c: Byte, d: Byte)
    ensures var (v, w, x, y) := Split(b, c, d); Join(v, w, x, y) == (b, c, d)
  {
    var (v, w, x, y) := Split(b, c, d);
    assert w as int / 16 == b as int % 4 && w as int % 16 == c as int / 16;
    assert x as int / 4 == c as int % 16 && x as int % 4 == d as int / 64;
  }

  /** Three bytes become four sextets; a tail of one or two bytes, padded with zero bits, becomes two or three. */
  function Pack(bs: Bytes): (vs: seq<Sextet>)
  {
    if bs == [] then []
    else if |bs| == 1 then
      var (v, w, _, _) := Split(bs[0], 0, 0);
      [v, w]
    else if |bs| == 2 then
      var (v, w, x, _) := Split(bs[0], bs[1], 0);
      [v, w, x]
    else
      var (v, w, x, y) := Split(bs[0], bs[1], bs[2]);
      [v, w, x, y] + Pack(bs[3..])
  }

  /** The decoder's inverse; left-over low bits are ignored and a lone sextet is corrupt. */
  function Unpack(vs: seq<Sextet>): Option<Bytes> {
    if vs == [] then Some([])
    else if |vs| == 1 then None
    else if |vs| == 2 then Some([Join(vs[0], vs[1], 0, 0).0])
    else if |vs| == 3 then
      var (b, c, _) := Join(vs[0], vs[1], vs[2], 0);
      Some([b, c])
    else
      var (b, c, d) := Join(vs[0], vs[1], vs[2], vs[3]);
      match Unpack(vs[4..])
      case None => None
      case Some(rest) => Some([b, c, d] + rest)
  }

  /** A padded tail's last sextets are zero, so leaving them out loses nothing. */
  lemma TailPadding(b: Byte, c: Byte)
    ensures Split(b, c, 0).3 == 0 && Split(b, 0, 0).2 == 0
  {
  }

  lemma {:induction false} UnpackOfPack(bs: Bytes)
    ensures Unpack(Pack(bs)) == Some(bs)
  {
    hide Split, Join;
    if |bs| >= 3 {
      JoinOfSplit(bs[0], bs[1], bs[2]);
      UnpackOfPack(bs[3..]);
      assert Pack(bs)[4..] == Pack(bs[3..]);
      assert bs == [bs[0], bs[1], bs[2]] + bs[3..];
    } else if |bs| == 2 {
      JoinOfSplit(bs[0], bs[1], 0);
      TailPadding(bs[0], bs[1]);
      assert bs == [bs[0], bs[1]];
    } else if |bs| == 1 {
      JoinOfSplit(bs[0], 0, 0);
      TailPadding(bs[0], 0);
      assert bs == [bs[0]];
    }
  }

  function Digits(vs: seq<Sextet>): (s: string)
    ensures |s| == |vs|
    ensures forall i :: 0 <= i < |vs| ==> s[i] == Digit(vs[i])
  {
    seq(|vs|, i requires 0 <= i < |vs| => Digit(vs[i]))
  }

  function Values(s: string): Option<seq<Sextet>> {
    if s == [] then Some([])
    else
      match (Value(s[0]), Values(s[1..]))
      case (Some(v), Some(vs)) => Some([v] + vs)
      case _ => None
  }

  lemma {:induction false} ValuesOfDigits(vs: seq<Sextet>)
    ensures Values(Digits(vs)) == Some(vs)
  {
    if vs != [] {
      ValueOfDigit(vs[0]);
      ValuesOfDigits(vs[1..]);
      assert Digits(vs)[1..] == Digits(vs[1..]);
      assert vs == [vs[0]] + vs[1..];
    }
  }

  function WithoutNewlines(s: string): string {
    if s == [] then []
    else if s[0] == '\n' || s[0] == '\r' then WithoutNewlines(s[1..])
    else [s[0]] + WithoutNewlines(s[1..])
  }

  lemma {:induction false} NothingToStrip(s: string)
    requires '\n' !in s && '\r' !in s
    ensures WithoutNewlines(s) == s
  {
    if s != [] {
      assert s[0] in s;
      NothingToStrip(s[1..]);
      assert s == [s[0]] + s[1..];
    }
  }

  function Encode(bs: Bytes): string {
    Digits(Pack(bs))
  }

  /** Decoding skips line breaks anywhere and rejects every other character outside the alphabet. */
  function Decode(s: string): Option<Bytes> {
    match Values(WithoutNewlines(s))
    case None => None
    case Some(vs) => Unpack(vs)
  }

  lemma EncodedAlphabet(bs: Bytes)
    ensures '.' !in Encode(bs) && '\n' !in Encode(bs) && '\r' !in Encode(bs)
    ensures forall c :: c in Encode(bs) ==> !IsSpace(c)
    ensures bs != [] ==> Encode(bs) != ""
  {
    var s := Encode(bs);
    forall c | c in s ensures Value(c).Some? {
      var i :| 0 <= i < |s| && s[i] == c;
      ValueOfDigit(Pack(bs)[i]);
    }
  }

  /** Every byte string survives the round trip. */
  lemma RoundTrip(bs: Bytes)
    ensures Decode(Encode(bs)) == Some(bs)
  {
    EncodedAlphabet(bs);
    NothingToStrip(Encode(bs));
    ValuesOfDigits(Pack(bs));
    UnpackOfPack(bs);
  }

  // ---------------------------------------------------------------- what decodes

  predicate IsNewline(c: char) {
    c == '\n' || c == '\r'
  }

  predicate InAlphabet(c: char) {
    'A' <= c <= 'Z' || 'a' <= c <= 'z' || '0' <= c <= '9' || c == '-' || c == '_'
  }

  lemma {:induction false} StrippedIsFilter(s: string)
    ensures forall c :: c in WithoutNewlines(s) <==> c in s && !IsNewline(c)
  {
    if s != [] {
      StrippedIsFilter(s[1..]);
      assert s == [s[0]] + s[1..];
    }
  }

  lemma ValueMeans(c: char)
    ensures Value(c).Some? <==> InAlphabet(c)
  {
  }

  lemma {:induction false} ValuesMeans(s: string)
    ensures Values(s).Some? <==> forall c :: c in s ==> InAlphabet(c)
    ensures Values(s).Some? ==> |Values(s).value| == |s|
  {
    hide Value, InAlphabet;
    if s != [] {
      ValueMeans(s[0]);
      ValuesMeans(s[1..]);
      assert s[0] in s && forall c :: c in s <==> c == s[0] || c in s[1..];
    }
  }

  /** Unpacking fails only for a lone sextet left over, and yields three bytes for every four sextets. */
  lemma {:induction false} UnpackMeans(vs: seq<Sextet>, k: nat, left: nat)
    requires |vs| == 4 * k + left && left < 4
    ensures Unpack(vs).Some? <==> left != 1
    ensures Unpack(vs).Some? ==> |Unpack(vs).value| == 3 * k + if left == 0 then 0 else left - 1
    decreases k
  {
    hide Join;
    if k > 0 { UnpackMeans(vs[4..], k - 1, left); }
  }

  /** Exactly what decodes: line breaks aside, characters of the alphabet, and not one over a multiple of four. */
  lemma DecodeMeans(s: string)
    ensures Decode(s).Some? <==>
      (forall c :: c in s ==> IsNewline(c) || InAlphabet(c)) && |WithoutNewlines(s)| % 4 != 1
  {
    hide IsNewline, InAlphabet;
    StrippedIsFilter(s);
    ValuesMeans(WithoutNewlines(s));
    if Values(WithoutNewlines(s)).Some? {
      var vs := Values(WithoutNewlines(s)).value;
      UnpackMeans(vs, |vs| / 4, |vs| % 4);
    }
  }

  lemma {:induction false} StripConcat(a: string, b: string)
    ensures WithoutNewlines(a + b) == WithoutNewlines(a) + WithoutNewlines(b)
  {
    if a == "" {
      assert a + b == b;
    } else {
      assert (a + b)[1..] == a[1..] + b;
      StripConcat(a[1..], b);
    }
  }

  /** A line break anywhere makes no difference. */
  lemma NewlinesAreSkipped(a: string, c: char, b: string)
    requires IsNewline(c)
    ensures Decode(a + [c] + b) == Decode(a + b)
  {
    hide Values, Unpack;
    StripConcat(a + [c], b);
    StripConcat(a, [c]);
    StripConcat(a, b);
    assert WithoutNewlines([c]) == WithoutNewlines([c][1..]) == [];
    assert WithoutNewlines(a + [c] + b) == WithoutNewlines(a + b);
  }

  /** Low bits left over in the last digit of a tail are ignored. */
  lemma TailBitsAreIgnored(v: Sextet, w: Sextet, x: Sextet)
    ensures Unpack([v, w]) == Unpack([v, (w as int / 16 * 16) as Sextet])
    ensures Unpack([v, w, x]) == Unpack([v, w, (x as int / 4 * 4) as Sextet])
  {
  }

  /** Four sextets hold the bits of three bytes, most significant first. */
  lemma SplitKeepsBits(b: Byte, c: Byte, d: Byte)
    ensures var (v, w, x, y) := Split(b, c, d);
      v as int * 0x40000 + w as int * 0x1000 + x as int * 0x40 + y as int
      == b as int * 0x10000 + c as int * 0x100 + d as int
  {
  }

  lemma EncodeByTriples(bs: Bytes)
    requires |bs| >= 3
    ensures Encode(bs) == Encode(bs[..3]) + Encode(bs[3..])
  {
    hide Split, Digit;
    var (head, tail) := (Pack(bs[..3]), Pack(bs[3..]));
    assert bs[..3][3..] == [];
    var (v, w, x, y) := Split(bs[0], bs[1], bs[2]);
    assert head == [v, w, x, y] + Pack(bs[..3][3..]) == [v, w, x, y];
    assert Pack(bs) == head + tail;
    assert Digits(head + tail) == Digits(head) + Digits(tail);
  }

  lemma ShortVectors()
    ensures Encode([]) == "" && Encode([102]) == "Zg" && Encode([98]) == "Yg"
  {
    assert Pack([102]) == [25, 32] && Pack([98]) == [24, 32];
  }

  lemma PairVectors()
    ensures Encode([102, 111]) == "Zm8" && Encode([98, 97]) == "YmE" && Encode([251, 255]) == "-_8"
  {
    assert Pack([102, 111]) == [25, 38, 60] && Pack([98, 97]) == [24, 38, 4] && Pack([251, 255]) == [62, 63, 60];
  }

  lemma TripleVectors()
    ensures Encode([102, 111, 111]) == "Zm9v" && Encode([98, 97, 114]) == "YmFy"
  {
    var foo: Bytes, bar: Bytes := [102, 111, 111], [98, 97, 114];
    assert foo[3..] == [] && bar[3..] == [];
    assert Pack(foo) == [25, 38, 61, 47] && Pack(bar) == [24, 38, 5, 50];
  }

  /** The test vectors of section 10 of RFC 4648, without padding, and one for the two characters of its section 5. */
  lemma TestVectors()
    ensures Encode([]) == "" && Encode([102]) == "Zg" && Encode([102, 111]) == "Zm8"
    ensures Encode([102, 111, 111]) == "Zm9v" && Encode([102, 111, 111, 98]) == "Zm9vYg"
    ensures Encode([102, 111, 111, 98, 97]) == "Zm9vYmE"
    ensures Encode([102, 111, 111, 98, 97, 114]) == "Zm9vYmFy" && Encode([251, 255]) == "-_8"
  {
    hide Pack, Digits;
    ShortVectors();
    PairVectors();
    TripleVectors();
    var foo: Bytes, foob: Bytes, fooba: Bytes, foobar: Bytes :=
      [102, 111, 111], [102, 111, 111, 98], [102, 111, 111, 98, 97], [102, 111, 111, 98, 97, 114];
    assert foob[..3] == fooba[..3] == foobar[..3] == foo;
    assert foob[3..] == [98] && fooba[3..] == [98, 97] && foobar[3..] == [98, 97, 114];
    EncodeByTriples(foob);
    EncodeByTriples(fooba);
    EncodeByTriples(foobar);
  }
}
