/** Parsing and printing UUIDs as text (infra/postgres/convert.go), on bytes. */
module Uuid {

  const HYPHEN: bv8 := 0x2d

  datatype ParseResult = Parsed(bytes: seq<bv8>) | ScanError

  predicate IsHex(c: bv8) {
    0x30 <= c <= 0x39 || 0x61 <= c <= 0x66 || 0x41 <= c <= 0x46
  }

  /** The value of a hex digit; any other byte counts as zero. */
  function Unhex(c: bv8): bv8 {
    if 0x30 <= c <= 0x39 then c - 0x30
    else if 0x61 <= c <= 0x66 then c - 0x61 + 10
    else if 0x41 <= c <= 0x46 then c - 0x41 + 10
    else 0
  }

  /** The lower-case digit of a four-bit value. */
  function HexDigit(n: bv8): bv8 {
    if n < 10 then 0x30 + n else 0x61 + (n - 10)
  }

  function Lower(c: bv8): bv8 { if 0x41 <= c <= 0x46 then c + 0x20 else c }

  function Strip(s: seq<bv8>): seq<bv8> {
    if s == [] then []
    else Strip(s[..|s| - 1]) + if s[|s| - 1] == HYPHEN then [] else [s[|s| - 1]]
  }

  function Join(hi: bv8, lo: bv8): bv8 { (hi << 4) | lo }

  function High(v: bv8): bv8 { v >> 4 }

  function Low(v: bv8): bv8 { v & 0x0f }

  function Pack(src: seq<bv8>): seq<bv8>
    requires |src| == 32
  {
    seq(16, i requires 0 <= i < 16 => Join(Unhex(src[2 * i]), Unhex(src[2 * i + 1])))
  }

  function Digits(b: seq<bv8>): seq<bv8>
    requires |b| == 16
  {
    seq(32, k requires 0 <= k < 32 =>
      if k % 2 == 0 then HexDigit(High(b[k / 2])) else HexDigit(Low(b[k / 2])))
  }

  /** 32 digits in groups of 8, 4, 4, 4 and 12. */
  function Canonical(d: seq<bv8>): (s: seq<bv8>)
    requires |d| == 32
    ensures |s| == 36
  {
    d[..8] + [HYPHEN] + d[8..12] + [HYPHEN] + d[12..16] + [HYPHEN] + d[16..20] + [HYPHEN] + d[20..]
  }

  // ---- the loops ----

  method ParseUUID(s: seq<bv8>) returns (r: ParseResult)
    ensures r == if |Strip(s)| == 32 then Parsed(Pack(Strip(s))) else ScanError
  {
    var src: seq<bv8> := [];
    for i := 0 to |s|
      invariant src == Strip(s[..i])
    {
      assert s[..i + 1][..i] == s[..i];
      if s[i] != HYPHEN { src := src + [s[i]]; }
    }
    assert s[..|s|] == s;
    if |src| != 32 { return ScanError; }
    var b := new bv8[16];
    for i := 0 to 16
      invariant forall j | 0 <= j < i :: b[j] == Pack(src)[j]
    {
      var hi := Unhex(src[i * 2]);
      var lo := Unhex(src[i * 2 + 1]);
      b[i] := (hi << 4) | lo;
    }
    assert b[..] == Pack(src);
    return Parsed(b[..]);
  }

  /** Where the digits of byte i start in the printed form. */
  function Start(i: nat): nat {
    2 * i
    + (if i >= 4 then 1 else 0) + (if i >= 6 then 1 else 0)
    + (if i >= 8 then 1 else 0) + (if i >= 10 then 1 else 0)
  }

  predicate AfterHyphen(i: nat) { i == 4 || i == 6 || i == 8 || i == 10 }

  lemma CanonicalAt(d: seq<bv8>, i: nat)
    requires |d| == 32 && i < 16
    ensures Start(i) + 1 < 36
    ensures Canonical(d)[Start(i)] == d[2 * i] && Canonical(d)[Start(i) + 1] == d[2 * i + 1]
    ensures AfterHyphen(i) ==> Canonical(d)[Start(i) - 1] == HYPHEN
  {
  }

  lemma PrintedAt(b: seq<bv8>, i: nat)
    requires |b| == 16 && i < 16
    ensures Start(i) + 1 < 36
    ensures Canonical(Digits(b))[Start(i)] == HexDigit(High(b[i]))
    ensures Canonical(Digits(b))[Start(i) + 1] == HexDigit(Low(b[i]))
    ensures AfterHyphen(i) ==> Canonical(Digits(b))[Start(i) - 1] == HYPHEN
    ensures i < 15 ==> Start(i + 1) - (if AfterHyphen(i + 1) then 1 else 0) == Start(i) + 2
  {
    CanonicalAt(Digits(b), i);
    assert (2 * i) / 2 == i && (2 * i + 1) / 2 == i;
  }

  /** The turn of the loop for byte i: a hyphen where one belongs, then two digits. */
  method PrintByte(buf: array<bv8>, at: nat, i: nat, x: bv8, ghost printed: seq<bv8>) returns (idx: nat)
    requires buf.Length == 36 == |printed| && i < 16 && Start(i) + 1 < 36
    requires at == Start(i) - if AfterHyphen(i) then 1 else 0
    requires printed[Start(i)] == HexDigit(High(x)) && printed[Start(i) + 1] == HexDigit(Low(x))
    requires AfterHyphen(i) ==> printed[Start(i) - 1] == HYPHEN
    requires forall k | 0 <= k < at :: buf[k] == printed[k]
    modifies buf
    ensures idx == Start(i) + 2 && forall k | 0 <= k < idx :: buf[k] == printed[k]
  {
    idx := at;
    if i == 4 || i == 6 || i == 8 || i == 10 {
      buf[idx] := HYPHEN;
      idx := idx + 1;
    }
    buf[idx] := HexDigit(High(x));
    buf[idx + 1] := HexDigit(Low(x));
    idx := idx + 2;
  }

  method FormatUUID(b: seq<bv8>) returns (s: seq<bv8>)
    requires |b| == 16
    ensures s == Canonical(Digits(b))
  {
    ghost var printed := Canonical(Digits(b));
    var buf := new bv8[36];
    var idx := 0;
    for i := 0 to 16
      invariant idx == Start(i) - if AfterHyphen(i) then 1 else 0
      invariant idx <= 36
      invariant forall k | 0 <= k < idx :: buf[k] == printed[k]
    {
      PrintedAt(b, i);
      idx := PrintByte(buf, idx, i, b[i], printed);
    }
    assert buf[..] == printed;
    return buf[..];
  }

  // ---- round trips ----

  function Parse(s: seq<bv8>): ParseResult {
    if |Strip(s)| == 32 then Parsed(Pack(Strip(s))) else ScanError
  }

  function Format(b: seq<bv8>): seq<bv8>
    requires |b| == 16
  {
    Canonical(Digits(b))
  }

  lemma {:induction false} StripAppend(a: seq<bv8>, b: seq<bv8>)
    ensures Strip(a + b) == Strip(a) + Strip(b)
  {
    if b == [] {
      assert a + b == a;
    } else {
      assert (a + b)[..|a + b| - 1] == a + b[..|b| - 1];
      StripAppend(a, b[..|b| - 1]);
    }
  }

  lemma {:induction false} StripPlain(s: seq<bv8>)
    requires forall i | 0 <= i < |s| :: s[i] != HYPHEN
    ensures Strip(s) == s
  {
    if s != [] {
      StripPlain(s[..|s| - 1]);
      assert s == s[..|s| - 1] + [s[|s| - 1]];
    }
  }

  lemma LoneHyphen()
    ensures Strip([HYPHEN]) == []
  {
    assert [HYPHEN][..0] == [];
  }

  lemma StripHyphen(a: seq<bv8>, b: seq<bv8>)
    ensures Strip(a + [HYPHEN] + b) == Strip(a) + Strip(b)
  {
    StripAppend(a + [HYPHEN], b);
    StripAppend(a, [HYPHEN]);
    LoneHyphen();
    assert Strip(a) + [] == Strip(a);
  }

  /** Stripping undoes the grouping. */
  lemma StripCanonical(d: seq<bv8>)
    requires |d| == 32 && forall i | 0 <= i < 32 :: d[i] != HYPHEN
    ensures Strip(Canonical(d)) == d
  {
    var a, b, c := d[..8], d[8..12], d[12..16];
    var e, f := d[16..20], d[20..];
    StripHyphen(a + [HYPHEN] + b + [HYPHEN] + c + [HYPHEN] + e, f);
    StripHyphen(a + [HYPHEN] + b + [HYPHEN] + c, e);
    StripHyphen(a + [HYPHEN] + b, c);
    StripHyphen(a, b);
    StripPlain(a);
    StripPlain(b);
    StripPlain(c);
    StripPlain(e);
    StripPlain(f);
    assert a + b + c + e + f == d;
  }

  lemma NibbleRoundTrip(v: bv8)
    ensures Join(Unhex(HexDigit(High(v))), Unhex(HexDigit(Low(v)))) == v
    ensures HexDigit(High(v)) != HYPHEN && HexDigit(Low(v)) != HYPHEN
  {
  }

  /** Parsing what was printed gives the bytes back. */
  lemma ParseUndoesFormat(b: seq<bv8>)
    requires |b| == 16
    ensures Parse(Format(b)) == Parsed(b)
  {
    var d := Digits(b);
    forall k | 0 <= k < 32 ensures d[k] != HYPHEN { NibbleRoundTrip(b[k / 2]); }
    StripCanonical(d);
    forall i | 0 <= i < 16 ensures Pack(d)[i] == b[i] {
      NibbleRoundTrip(b[i]);
      assert (2 * i) / 2 == i && (2 * i + 1) / 2 == i && (2 * i + 1) % 2 == 1;
    }
    assert Pack(d) == b;
  }

  lemma UnhexIsNibble(c: bv8)
    ensures Unhex(c) < 16
    ensures HexDigit(Unhex(c)) == Lower(c) <==> IsHex(c)
  {
  }

  lemma NibblesApart(hi: bv8, lo: bv8)
    requires hi < 16 && lo < 16
    ensures High(Join(hi, lo)) == hi && Low(Join(hi, lo)) == lo
  {
  }

  function Lowered(d: seq<bv8>): seq<bv8> {
    seq(|d|, k requires 0 <= k < |d| => Lower(d[k]))
  }

  lemma DigitsOfPack(src: seq<bv8>, k: nat)
    requires |src| == 32 && k < 32
    ensures Digits(Pack(src))[k] == HexDigit(Unhex(src[k]))
  {
    UnhexIsNibble(src[2 * (k / 2)]);
    UnhexIsNibble(src[2 * (k / 2) + 1]);
    NibblesApart(Unhex(src[2 * (k / 2)]), Unhex(src[2 * (k / 2) + 1]));
  }

  lemma {:induction false} CanonicalInjective(d: seq<bv8>, e: seq<bv8>)
    requires |d| == |e| == 32 && Canonical(d) == Canonical(e)
    ensures d == e
  {
    forall k | 0 <= k < 32 ensures d[k] == e[k] {
      CanonicalAt(d, k / 2);
      CanonicalAt(e, k / 2);
    }
  }

  /** Printing what was parsed gives the lower-case canonical form of the text, wherever its
      hyphens stood, exactly if all its other characters are hex digits: parsing does not
      reject other characters but reads them as zero. */
  lemma FormatUndoesParseIff(s: seq<bv8>)
    requires |Strip(s)| == 32
    ensures Format(Parse(s).bytes) == Canonical(Lowered(Strip(s)))
       <==> forall i | 0 <= i < 32 :: IsHex(Strip(s)[i])
  {
    var src := Strip(s);
    var printed, wanted := Digits(Pack(src)), Lowered(src);
    forall k | 0 <= k < 32 ensures printed[k] == wanted[k] <==> IsHex(src[k]) {
      DigitsOfPack(src, k);
      UnhexIsNibble(src[k]);
    }
    assert (forall k | 0 <= k < 32 :: IsHex(src[k])) ==> printed == wanted;
    if Canonical(printed) == Canonical(wanted) { CanonicalInjective(printed, wanted); }
  }

  /** A text with one character that is no hex digit, which parses all the same and is not
      given back. */
  lemma NonHexIsAccepted() returns (s: seq<bv8>)
    ensures |s| == 32 && (forall i | 0 <= i < 32 :: IsHex(s[i]) <==> i != 0)
    ensures Parse(s).Parsed? && Format(Parse(s).bytes) != Canonical(Lowered(s))
  {
    s := [0x67] + seq(31, _ => 0x30);
    StripPlain(s);
    FormatUndoesParseIff(s);
    assert !IsHex(Strip(s)[0]);
  }

  // ---- what the text says ----

  const DIGITS: seq<bv8> :=
    [0x30, 0x31, 0x32, 0x33, 0x34, 0x35, 0x36, 0x37, 0x38, 0x39, 0x61, 0x62, 0x63, 0x64, 0x65, 0x66]

  const POSITIONS: seq<nat> := [0, 2, 4, 6, 9, 11, 14, 16, 19, 21, 24, 26, 28, 30, 32, 34]

  lemma HexDigitIs(v: bv8, n: nat)
    requires v < 16 && n == v as int
    ensures n < 16 && HexDigit(v) == DIGITS[n]
  {
  }

  lemma TwoDigits(v: bv8)
    ensures High(v) < 16 && Low(v) < 16 && v == 16 * High(v) + Low(v)
  {
  }

  /** In the printed form the two characters of byte i are the hexadecimal digits of its value,
      the higher first, and the hyphens stand where they belong. */
  lemma FormatShows(b: seq<bv8>, i: nat) returns (hi: nat, lo: nat)
    requires |b| == 16 && i < 16
    ensures hi < 16 && lo < 16 && b[i] as int == 16 * hi + lo
    ensures var s := Format(b); var p := POSITIONS[i];
      && |s| == 36 && s[8] == s[13] == s[18] == s[23] == HYPHEN
      && s[p] == DIGITS[hi] && s[p + 1] == DIGITS[lo]
  {
    hi, lo := High(b[i]) as int, Low(b[i]) as int;
    TwoDigits(b[i]);
    HexDigitIs(High(b[i]), hi);
    HexDigitIs(Low(b[i]), lo);
    PrintedAt(b, i);
    PrintedAt(b, 4);
    PrintedAt(b, 6);
    PrintedAt(b, 8);
    PrintedAt(b, 10);
    assert Start(i) == POSITIONS[i];
  }
}
