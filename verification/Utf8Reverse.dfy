/** Reversing a string rune by rune in a byte buffer, over UTF-8 as in section 3 of RFC 3629. */
module Utf8Reverse {
  import opened Wrappers

  type byte = b: int | 0 <= b < 256

  const RUNE_ERROR := 0xFFFD

  predicate IsScalar(r: int) {
    0 <= r < 0xD800 || 0xE000 <= r < 0x11_0000
  }

  /** utf8.EncodeRune: anything but a scalar value is written as the error rune. */
  function Encode(r: int): (bytes: seq<byte>)
    ensures 1 <= |bytes| <= 4
  {
    if !IsScalar(r) then [0xEF, 0xBF, 0xBD]
    else if r < 0x80 then [r]
    else if r < 0x800 then [0xC0 + r / 64, 0x80 + r % 64]
    else if r < 0x1_0000 then [0xE0 + r / 4096, 0x80 + r / 64 % 64, 0x80 + r % 64]
    else [0xF0 + r / 26_2144, 0x80 + r / 4096 % 64, 0x80 + r / 64 % 64, 0x80 + r % 64]
  }

  predicate Continues(b: byte) {
    0x80 <= b <= 0xBF
  }

  /** Whether a second byte may follow this first byte of a sequence. */
  predicate Second(first: byte, b: byte) {
    (if first == 0xE0 then 0xA0 else if first == 0xF0 then 0x90 else 0x80)
    <= b <=
    (if first == 0xED then 0x9F else if first == 0xF4 then 0x8F else 0xBF)
  }

  /** A byte as a number that arithmetic may take out of the range of a byte. */
  function Num(b: byte): int {
    b
  }

  /** utf8.DecodeRune: the first rune and its width; a byte that starts no sequence is
      the error rune, one byte wide. */
  function Decode(s: seq<byte>): (d: (int, nat))
    requires s != []
    ensures 1 <= d.1 <= |s|
  {
    if s[0] < 0x80 then (Num(s[0]), 1)
    else if 0xC2 <= s[0] <= 0xDF && |s| > 1 && Second(s[0], s[1]) then
      ((Num(s[0]) - 0xC0) * 64 + Num(s[1]) - 0x80, 2)
    else if 0xE0 <= s[0] <= 0xEF && |s| > 2 && Second(s[0], s[1]) && Continues(s[2]) then
      ((Num(s[0]) - 0xE0) * 4096 + (Num(s[1]) - 0x80) * 64 + Num(s[2]) - 0x80, 3)
    else if 0xF0 <= s[0] <= 0xF4 && |s| > 3 && Second(s[0], s[1]) && Continues(s[2]) && Continues(s[3]) then
      ((Num(s[0]) - 0xF0) * 26_2144 + (Num(s[1]) - 0x80) * 4096 + (Num(s[2]) - 0x80) * 64 + Num(s[3]) - 0x80, 4)
    else (RUNE_ERROR, 1)
  }

  /** The string starts with a byte that starts no sequence. */
  predicate Bad(s: seq<byte>) {
    s != [] && Decode(s) == (RUNE_ERROR, 1)
  }

  /** Six-bit digits are recovered by division, and a number is the sum of its digits. */
  lemma Digits(a: int, b: int, c: int)
    requires 0 <= b < 64 && 0 <= c < 64
    ensures var r := a * 4096 + b * 64 + c; r / 4096 == a && r / 64 % 64 == b && r % 64 == c && r / 64 == a * 64 + b
  {
    var r := a * 4096 + b * 64 + c;
    assert r / 64 == a * 64 + b;
  }

  lemma Sum(r: int)
    requires r >= 0
    ensures r == r / 4096 * 4096 + r / 64 % 64 * 64 + r % 64
    ensures r / 4096 == r / 26_2144 * 64 + r / 4096 % 64
  {
    assert r / 64 == r / 4096 * 64 + r / 64 % 64;
  }

  lemma Prefix(bytes: seq<byte>, rest: seq<byte>)
    ensures forall i :: 0 <= i < |bytes| ==> (bytes + rest)[i] == bytes[i]
  {
  }

  lemma {:induction false} DecodeEncode(r: int, rest: seq<byte>)
    requires IsScalar(r)
    ensures Decode(Encode(r) + rest) == (r, |Encode(r)|)
  {
    Prefix(Encode(r), rest);
    if r < 0x800 {
    } else if r < 0x1_0000 {
      ThreeBytes(r, rest);
    } else {
      FourBytes(r, rest);
    }
  }

  lemma ThreeBytes(r: int, rest: seq<byte>)
    requires IsScalar(r) && 0x800 <= r < 0x1_0000
    ensures Decode(Encode(r) + rest) == (r, 3)
  {
    Sum(r);
    Prefix(Encode(r), rest);
    var s := Encode(r) + rest;
    assert Num(s[0]) - 0xE0 == r / 4096 && Num(s[1]) - 0x80 == r / 64 % 64 && Num(s[2]) - 0x80 == r % 64;
  }

  lemma FourBytes(r: int, rest: seq<byte>)
    requires IsScalar(r) && 0x1_0000 <= r
    ensures Decode(Encode(r) + rest) == (r, 4)
  {
    Sum(r);
    Prefix(Encode(r), rest);
    var s := Encode(r) + rest;
    assert Num(s[0]) - 0xF0 == r / 26_2144 && Num(s[1]) - 0x80 == r / 4096 % 64;
    assert Num(s[2]) - 0x80 == r / 64 % 64 && Num(s[3]) - 0x80 == r % 64;
  }

  lemma {:induction false} EncodeDecode(s: seq<byte>)
    requires s != [] && !Bad(s)
    ensures var (r, n) := Decode(s); IsScalar(r) && Encode(r) == s[..n]
  {
    var (r, n) := Decode(s);
    if n == 3 {
      FromThree(s);
    } else if n == 4 {
      FromFour(s);
    }
  }

  lemma FromThree(s: seq<byte>)
    requires s != [] && Decode(s).1 == 3
    ensures var r := Decode(s).0; IsScalar(r) && Encode(r) == s[..3]
  {
    var a, b, c := Num(s[0]) - 0xE0, Num(s[1]) - 0x80, Num(s[2]) - 0x80;
    Digits(a, b, c);
    assert Decode(s).0 == a * 4096 + b * 64 + c;
  }

  lemma {:induction false} FromFour(s: seq<byte>)
    requires s != [] && Decode(s).1 == 4
    ensures var r := Decode(s).0; IsScalar(r) && Encode(r) == s[..4]
  {
    var a, b, c, d := Num(s[0]) - 0xF0, Num(s[1]) - 0x80, Num(s[2]) - 0x80, Num(s[3]) - 0x80;
    Digits(a * 64 + b, c, d);
    assert Decode(s).0 == (a * 64 + b) * 4096 + c * 64 + d;
    assert (a * 64 + b) / 64 == a && (a * 64 + b) % 64 == b;
    assert Decode(s).0 / 26_2144 == a;
  }

  // ----- whole strings

  /** The runes of a string, as ranging over it gives them. */
  function Runes(s: seq<byte>): seq<int>
    decreases |s|
  {
    if s == [] then [] else [Decode(s).0] + Runes(s[Decode(s).1..])
  }

  predicate Valid(s: seq<byte>)
    decreases |s|
  {
    s == [] || (!Bad(s) && Valid(s[Decode(s).1..]))
  }

  function EncodeAll(rs: seq<int>): seq<byte> {
    if rs == [] then [] else Encode(rs[0]) + EncodeAll(rs[1..])
  }

  predicate AllScalar(rs: seq<int>) {
    forall i :: 0 <= i < |rs| ==> IsScalar(rs[i])
  }

  lemma {:induction false} EncodedIsValid(rs: seq<int>)
    requires AllScalar(rs)
    ensures Valid(EncodeAll(rs)) && Runes(EncodeAll(rs)) == rs
    decreases |rs|
  {
    if rs != [] {
      hide Decode, Encode;
      EncodedIsValid(rs[1..]);
      DecodeEncode(rs[0], EncodeAll(rs[1..]));
      var s := EncodeAll(rs);
      assert s[|Encode(rs[0])|..] == EncodeAll(rs[1..]);
      NotBad(rs[0], EncodeAll(rs[1..]));
    }
  }

  lemma NotBad(r: int, rest: seq<byte>)
    requires IsScalar(r)
    ensures !Bad(Encode(r) + rest)
  {
    DecodeEncode(r, rest);
  }

  lemma {:induction false} ValidIsEncoded(s: seq<byte>)
    requires Valid(s)
    ensures AllScalar(Runes(s)) && EncodeAll(Runes(s)) == s
    decreases |s|
  {
    if s != [] {
      hide *;
      var r, rest := FirstRune(s);
      ValidIsEncoded(rest);
      Prepended(r, Runes(rest));
    }
  }

  lemma {:induction false} FirstRune(s: seq<byte>) returns (r: int, rest: seq<byte>)
    requires Valid(s) && s != []
    ensures IsScalar(r) && s == Encode(r) + rest && |rest| < |s|
    ensures Valid(rest) && Runes(s) == [r] + Runes(rest)
  {
    hide Decode, Encode, Bad;
    EncodeDecode(s);
    r, rest := Decode(s).0, s[Decode(s).1..];
    assert s == s[..Decode(s).1] + rest;
  }

  lemma Prepended(r: int, rs: seq<int>)
    requires IsScalar(r) && AllScalar(rs)
    ensures AllScalar([r] + rs) && EncodeAll([r] + rs) == Encode(r) + EncodeAll(rs)
  {
    hide Encode, IsScalar;
    assert ([r] + rs)[1..] == rs;
  }

  /** A string is valid exactly when it is the encoding of some scalar values. */
  lemma ValidIffEncoded(s: seq<byte>)
    ensures Valid(s) <==> exists rs :: AllScalar(rs) && EncodeAll(rs) == s
  {
    if Valid(s) {
      ValidIsEncoded(s);
    } else if rs :| AllScalar(rs) && EncodeAll(rs) == s {
      EncodedIsValid(rs);
    }
  }

  lemma {:induction false} EncodeAllSplits(xs: seq<int>, ys: seq<int>)
    ensures EncodeAll(xs + ys) == EncodeAll(xs) + EncodeAll(ys)
  {
    if xs == [] {
      assert xs + ys == ys;
    } else {
      hide Encode;
      assert (xs + ys)[1..] == xs[1..] + ys;
      EncodeAllSplits(xs[1..], ys);
    }
  }

  function Reverse<T>(xs: seq<T>): (r: seq<T>)
    ensures |r| == |xs| && forall i :: 0 <= i < |r| ==> r[i] == xs[|xs| - 1 - i]
  {
    if xs == [] then [] else Reverse(xs[1..]) + [xs[0]]
  }

  lemma {:induction false} ReversedLength(rs: seq<int>)
    ensures |EncodeAll(Reverse(rs))| == |EncodeAll(rs)|
  {
    if rs != [] {
      ReversedLength(rs[1..]);
      EncodeAllSplits(Reverse(rs[1..]), [rs[0]]);
      assert [rs[0]][1..] == [];
    }
  }

  /** The bytes of a string's runes in reverse order. */
  function Reversed(s: seq<byte>): seq<byte> {
    EncodeAll(Reverse(Runes(s)))
  }

  /** For a valid string the reversal is valid, as long, decodes to the runes reversed,
      and reverses back to the original. */
  lemma ReversalLaws(s: seq<byte>)
    requires Valid(s)
    ensures Valid(Reversed(s)) && |Reversed(s)| == |s|
    ensures Runes(Reversed(s)) == Reverse(Runes(s))
    ensures Reversed(Reversed(s)) == s
  {
    hide Runes, EncodeAll, Valid, AllScalar, Reverse;
    ValidIsEncoded(s);
    var rs := Runes(s);
    ReversedScalars(rs);
    EncodedIsValid(Reverse(rs));
    ReversedLength(rs);
  }

  lemma ReversedScalars(rs: seq<int>)
    requires AllScalar(rs)
    ensures AllScalar(Reverse(rs)) && Reverse(Reverse(rs)) == rs
  {
  }

  // ----- filling the buffer from its end

  lemma RuneWidths(s: seq<byte>)
    requires s != []
    ensures |Encode(Decode(s).0)| == if Bad(s) then 3 else Decode(s).1
    ensures Bad(s) ==> Decode(s).1 == 1
    ensures !Bad(s) && Decode(s).1 == 1 ==> s[0] < 0x80
    ensures s[0] < 0x80 ==> !Bad(s) && Decode(s).1 == 1
  {
    if !Bad(s) {
      EncodeDecode(s);
    }
  }

  /** The filled end of the buffer once the runes of s have been written in front of what
      is there. The error rune takes the place of the byte it stands for and of the two
      before it in the buffer, and without them the write panics. */
  function Fill(filled: seq<byte>, s: seq<byte>): (r: Option<seq<byte>>)
    ensures r.Some? ==> |r.value| == |filled| + |s|
    decreases |s|
  {
    if s == [] then Some(filled)
    else
      RuneWidths(s);
      var (rune, n) := Decode(s);
      var bytes := Encode(rune);
      if |bytes| > |filled| + n then None else Fill(bytes + filled[|bytes| - n..], s[n..])
  }

  /** The first rune that cannot be written: the error rune needs three bytes, and there
      are fewer when it stands for the first or second byte of the string. */
  predicate Overruns(s: seq<byte>) {
    Bad(s) || (|s| > 1 && s[0] < 0x80 && Bad(s[1..]))
  }

  lemma {:induction false} RoomLeft(filled: seq<byte>, s: seq<byte>)
    requires |filled| >= 2
    ensures Fill(filled, s).Some?
    decreases |s|
  {
    if s != [] {
      hide Decode, Encode, Bad;
      RuneWidths(s);
      var (rune, n) := Decode(s);
      RoomLeft(Encode(rune) + filled[|Encode(rune)| - n..], s[n..]);
    }
  }

  /** Reversing panics exactly when the first or second byte of the string starts no
      sequence, the second only after an ASCII byte. */
  lemma {:induction false} PanicsIffOverruns(s: seq<byte>)
    ensures Fill([], s).None? <==> Overruns(s)
  {
    if s != [] {
      hide Decode, Encode, Bad, Fill;
      RuneWidths(s);
      var n, bytes := Decode(s).1, Encode(Decode(s).0);
      FillsOne([], s);
      assert bytes + [][0..] == bytes;
      if n >= 2 {
        RoomLeft(bytes, s[n..]);
      } else if !Bad(s) && |s| > 1 {
        RuneWidths(s[1..]);
        FillsOne(bytes, s[1..]);
        var m, more := Decode(s[1..]).1, Encode(Decode(s[1..]).0);
        if !Bad(s[1..]) {
          RoomLeft(more + bytes[0..], s[1..][m..]);
        }
      } else {
        FillsNone(bytes);
      }
    }
  }

  lemma FillsOne(filled: seq<byte>, s: seq<byte>)
    requires s != []
    ensures var (rune, n) := Decode(s);
      var bytes := Encode(rune);
      && n <= |bytes|
      && Fill(filled, s)
         == if |bytes| > |filled| + n then None else Fill(bytes + filled[|bytes| - n..], s[n..])
  {
    RuneWidths(s);
  }

  lemma FillsNone(filled: seq<byte>)
    ensures Fill(filled, []) == Some(filled)
  {
  }

  /** A rune that can be decoded takes exactly its own bytes. */
  lemma FillsRune(filled: seq<byte>, s: seq<byte>)
    requires s != [] && !Bad(s)
    ensures var (r, n) := Decode(s); Fill(filled, s) == Fill(Encode(r) + filled, s[n..])
  {
    hide Decode, Encode, Bad, Fill;
    RuneWidths(s);
    FillsOne(filled, s);
    assert filled[0..] == filled;
  }

  lemma ReverseEncoded(done: seq<int>, r: int)
    ensures EncodeAll(Reverse(done + [r])) == Encode(r) + EncodeAll(Reverse(done))
  {
    hide Encode;
    ReverseSnoc(done, r);
    assert ([r] + Reverse(done))[1..] == Reverse(done);
  }

  lemma {:induction false} FillsReversed(done: seq<int>, s: seq<byte>)
    requires Valid(s)
    ensures Fill(EncodeAll(Reverse(done)), s) == Some(EncodeAll(Reverse(done + Runes(s))))
    decreases |s|
  {
    hide Decode, Encode, Bad, Fill, EncodeAll, Reverse;
    if s == [] {
      FillsNone(EncodeAll(Reverse(done)));
      assert done + [] == done;
    } else {
      var (r, n) := Decode(s);
      FillsRune(EncodeAll(Reverse(done)), s);
      ReverseEncoded(done, r);
      FillsReversed(done + [r], s[n..]);
      assert done + ([r] + Runes(s[n..])) == (done + [r]) + Runes(s[n..]);
    }
  }

  lemma ReverseSnoc(xs: seq<int>, x: int)
    ensures Reverse(xs + [x]) == [x] + Reverse(xs)
  {
  }

  /** Decoding and encoding a string again makes it longer unless it is valid. */
  lemma {:induction false} InvalidGrows(s: seq<byte>)
    ensures |EncodeAll(Runes(s))| >= |s|
    ensures |EncodeAll(Runes(s))| == |s| <==> Valid(s)
    decreases |s|
  {
    if s != [] {
      hide Decode, Encode, Bad;
      var (r, n) := Decode(s);
      RuneWidths(s);
      InvalidGrows(s[n..]);
      assert ([r] + Runes(s[n..]))[1..] == Runes(s[n..]);
    }
  }

  /** The buffer ends up with the runes in reverse order exactly for valid strings. */
  lemma ReversesIffValid(s: seq<byte>)
    ensures Fill([], s) == Some(Reversed(s)) <==> Valid(s)
  {
    hide Fill, Valid, Runes;
    if Valid(s) {
      FillsReversed([], s);
      assert [] + Runes(s) == Runes(s);
      assert Reverse<int>([]) == [];
    }
    InvalidGrows(s);
    ReversedLength(Runes(s));
  }

  // ----- the imperative form

  /** utf8.EncodeRune into a slice of the buffer. */
  method Write(buf: array<byte>, at: nat, bytes: seq<byte>)
    requires at + |bytes| <= buf.Length
    modifies buf
    ensures buf[..at] == old(buf[..at]) && buf[at..] == bytes + old(buf[at + |bytes|..])
  {
    forall i | 0 <= i < |bytes| {
      buf[at + i] := bytes[i];
    }
  }

  /** None is a panic. */
  method ReverseString(s: seq<byte>) returns (r: Option<seq<byte>>)
    ensures r == Fill([], s)
  {
    hide Decode, Encode, Bad, Fill;
    var size := |s|;
    var buf := new byte[size](_ => 0);
    var start := 0;
    assert s[0..] == s && buf[size..] == [];
    while start < size
      invariant 0 <= start <= size && buf.Length == size
      invariant Fill(buf[size - start..], s[start..]) == Fill([], s)
    {
      ghost var filled := buf[size - start..];
      FillsOne(filled, s[start..]);
      var (rune, n) := Decode(s[start..]);
      assert s[start..][n..] == s[start + n..];
      start := start + n;
      var bytes := Encode(rune);
      if |bytes| > start {
        return None;
      }
      assert filled[|bytes| - n..] == buf[size - start + |bytes|..];
      Write(buf, size - start, bytes);
    }
    assert buf[size - start..] == buf[..] && s[start..] == [];
    FillsNone(buf[..]);
    r := Some(buf[..]);
  }
}
