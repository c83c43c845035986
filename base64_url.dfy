/**
 * Django's `urlsafe_base64_encode` / `urlsafe_base64_decode` over bytes.
 *
 * Encoding is base 64 with the URL- and filename-safe alphabet of section 5
 * of RFC 4648, with the `=` padding stripped. Decoding first appends
 * `len(s.encode()) % 4` padding characters (Django's rule), maps `-` to `+`
 * and `_` to `/`, and then runs CPython's lenient (non-strict) base 64
 * decoder: characters outside the alphabet are skipped, a pad character
 * ends the input once a quantum has at least two data characters and enough
 * padding, and leftover bits of an incomplete quantum are dropped.
 */
module Base64Url {
  import opened Wrappers
  import opened PyText

  newtype byte = x: int | 0 <= x < 256

  /** A character of the URL- and filename-safe alphabet. */
  predicate IsUrlSafe(c: char) {
    ('A' <= c <= 'Z') || ('a' <= c <= 'z') || ('0' <= c <= '9') || c == '-' || c == '_'
  }

  /**
   * The value the decoder gives a character, or -1 for one it skips. Both
   * `-` and `+` are 62 and both `_` and `/` are 63, because the translation
   * to the standard alphabet leaves `+` and `/` in place.
   */
  function Sextet(c: char): (v: int)
    ensures -1 <= v < 64
    ensures IsUrlSafe(c) ==> v >= 0
    ensures v >= 0 ==> IsAscii(c)
  {
    if 'A' <= c <= 'Z' then c as int - 'A' as int
    else if 'a' <= c <= 'z' then c as int - 'a' as int + 26
    else if '0' <= c <= '9' then c as int - '0' as int + 52
    else if c == '-' || c == '+' then 62
    else if c == '_' || c == '/' then 63
    else -1
  }

  /** The character of the URL-safe alphabet for the sextet `v`. */
  function UrlSafeChar(v: int): (c: char)
    requires 0 <= v < 64
    ensures IsUrlSafe(c) && Sextet(c) == v
  {
    if v < 26 then ('A' as int + v) as char
    else if v < 52 then ('a' as int + v - 26) as char
    else if v < 62 then ('0' as int + v - 52) as char
    else if v == 62 then '-'
    else '_'
  }

  /** The four characters that encode three bytes. */
  function Quantum(b0: byte, b1: byte, b2: byte): (q: string)
    ensures |q| == 4 && forall c | c in q :: IsUrlSafe(c)
  {
    [UrlSafeChar(b0 as int / 4), UrlSafeChar(b0 as int % 4 * 16 + b1 as int / 16),
     UrlSafeChar(b1 as int % 16 * 4 + b2 as int / 64), UrlSafeChar(b2 as int % 64)]
  }

  /** The three characters that encode a final pair of bytes (padding stripped). */
  function Quantum2(b0: byte, b1: byte): (q: string)
    ensures |q| == 3 && forall c | c in q :: IsUrlSafe(c)
  {
    [UrlSafeChar(b0 as int / 4), UrlSafeChar(b0 as int % 4 * 16 + b1 as int / 16),
     UrlSafeChar(b1 as int % 16 * 4)]
  }

  /** The two characters that encode a final single byte (padding stripped). */
  function Quantum1(b0: byte): (q: string)
    ensures |q| == 2 && forall c | c in q :: IsUrlSafe(c)
  {
    [UrlSafeChar(b0 as int / 4), UrlSafeChar(b0 as int % 4 * 16)]
  }

  /** `urlsafe_base64_encode(b)`: base64url without padding. */
  function Encode(b: seq<byte>): (s: string)
    ensures |s| % 4 != 1
    ensures |s| == 0 <==> |b| == 0
    ensures forall c | c in s :: IsUrlSafe(c)
    decreases |b|
  {
    if |b| == 0 then ""
    else if |b| == 1 then Quantum1(b[0])
    else if |b| == 2 then Quantum2(b[0], b[1])
    else Quantum(b[0], b[1], b[2]) + Encode(b[3..])
  }

  /** The decoder's state: position in the quantum, pending bits, pads seen, bytes produced. */
  datatype Scan = Scan(quad: nat, left: int, pads: nat, out: seq<byte>)

  /** Takes one data character of value `v`; a finished byte is truncated to 8 bits, as in C. */
  function Feed(st: Scan, v: int): (st': Scan)
    requires 0 <= v < 64
    ensures st'.pads == 0 && st'.quad < 4
    ensures st'.quad == (st.quad + 1) % 4 || st.quad >= 4
  {
    if st.quad == 0 then Scan(1, v, 0, st.out)
    else if st.quad == 1 then Scan(2, v % 16, 0, st.out + [((st.left * 4 + v / 16) % 256) as byte])
    else if st.quad == 2 then Scan(3, v % 4, 0, st.out + [((st.left * 16 + v / 4) % 256) as byte])
    else Scan(0, 0, 0, st.out + [((st.left * 64 + v) % 256) as byte])
  }

  /** CPython's non-strict `a2b_base64` loop from state `st`; None is binascii.Error. */
  function Run(s: string, st: Scan): Option<seq<byte>>
    decreases |s|
  {
    if |s| == 0 then
      if st.quad == 0 then Some(st.out) else None
    else if s[0] == '=' then
      if st.quad >= 2 then
        if st.quad + st.pads + 1 >= 4 then Some(st.out)
        else Run(s[1..], st.(pads := st.pads + 1))
      else Run(s[1..], st)
    else if Sextet(s[0]) < 0 then Run(s[1..], st)
    else Run(s[1..], Feed(st, Sextet(s[0])))
  }

  function Padding(n: nat): (p: string)
    ensures |p| == n && forall c | c in p :: c == '='
  {
    if n == 0 then "" else "=" + Padding(n - 1)
  }

  /** `urlsafe_base64_decode(s)`; None is the ValueError Django raises. */
  function Decode(s: string): Option<seq<byte>> {
    Run(s + Padding(Utf8Length(s) % 4), Scan(0, 0, 0, []))
  }

  lemma {:induction false} FirstByte(b0: int, b1: int)
    requires 0 <= b0 < 256 && 0 <= b1 < 256
    ensures (b0 / 4 * 4 + (b0 % 4 * 16 + b1 / 16) / 16) % 256 == b0
    ensures (b0 % 4 * 16 + b1 / 16) % 16 == b1 / 16
  {
  }

  lemma {:induction false} SecondByte(b1: int, b2: int)
    requires 0 <= b1 < 256 && 0 <= b2 < 256
    ensures (b1 / 16 * 16 + (b1 % 16 * 4 + b2 / 64) / 4) % 256 == b1
    ensures (b1 % 16 * 4 + b2 / 64) % 4 == b2 / 64
  {
  }

  lemma {:induction false} ThirdByte(b2: int)
    requires 0 <= b2 < 256
    ensures (b2 / 64 * 64 + b2 % 64) % 256 == b2
  {
  }

  /** One step of `Run` over a data character. */
  lemma {:induction false} RunData(c: char, s: string, st: Scan)
    requires Sextet(c) >= 0
    ensures Run([c] + s, st) == Run(s, Feed(st, Sextet(c)))
  {
    assert ([c] + s)[0] == c && ([c] + s)[1..] == s;
  }

  /** A lone byte: two data characters and two pads. */
  lemma {:induction false} RunOne(b0: byte, st: Scan)
    requires st.quad == 0
    ensures Run(Encode([b0]) + Padding(2), st) == Some(st.out + [b0])
  {
    var v0, v1 := b0 as int / 4, b0 as int % 4 * 16;
    FirstByte(b0 as int, 0);
    var c0, c1 := UrlSafeChar(v0), UrlSafeChar(v1);
    assert Encode([b0]) + Padding(2) == [c0] + ([c1] + "==");
    RunData(c0, [c1] + "==", st);
    var st1 := Feed(st, v0);
    RunData(c1, "==", st1);
    var st2 := Feed(st1, v1);
    assert st2 == Scan(2, v1 % 16, 0, st.out + [b0]);
    assert Run("==", st2) == Run("=", st2.(pads := 1));
  }

  lemma {:induction false} FeedPair(b0: byte, b1: byte, st: Scan)
    requires st.quad == 0
    ensures Feed(Feed(Feed(st, b0 as int / 4), b0 as int % 4 * 16 + b1 as int / 16), b1 as int % 16 * 4)
            == Scan(3, 0, 0, st.out + [b0, b1])
  {
    var v0, v1, v2 := b0 as int / 4, b0 as int % 4 * 16 + b1 as int / 16, b1 as int % 16 * 4;
    FirstByte(b0 as int, b1 as int);
    SecondByte(b1 as int, 0);
    var st1 := Feed(st, v0);
    var st2 := Feed(st1, v1);
    assert st2 == Scan(2, v1 % 16, 0, st.out + [b0]);
  }

  /** Two bytes: three data characters and three pads. */
  lemma {:induction false} RunTwo(b0: byte, b1: byte, st: Scan)
    requires st.quad == 0
    ensures Run(Encode([b0, b1]) + Padding(3), st) == Some(st.out + [b0, b1])
  {
    var v0, v1, v2 := b0 as int / 4, b0 as int % 4 * 16 + b1 as int / 16, b1 as int % 16 * 4;
    var c0, c1, c2 := UrlSafeChar(v0), UrlSafeChar(v1), UrlSafeChar(v2);
    assert Padding(3) == "===";
    assert Encode([b0, b1]) == [c0, c1, c2];
    assert Encode([b0, b1]) + Padding(3) == [c0] + ([c1] + ([c2] + "==="));
    RunData(c0, [c1] + ([c2] + "==="), st);
    var st1 := Feed(st, v0);
    RunData(c1, [c2] + "===", st1);
    var st2 := Feed(st1, v1);
    RunData(c2, "===", st2);
    FeedPair(b0, b1, st);
  }

  lemma {:induction false} EncodeThree(b0: byte, b1: byte, b2: byte)
    ensures Encode([b0, b1, b2]) == Quantum(b0, b1, b2)
  {
    assert [b0, b1, b2][3..] == [];
  }

  lemma {:induction false} FeedQuantum(b0: byte, b1: byte, b2: byte, st: Scan)
    requires st.quad == 0
    ensures Feed(Feed(Feed(Feed(st, b0 as int / 4), b0 as int % 4 * 16 + b1 as int / 16),
                      b1 as int % 16 * 4 + b2 as int / 64), b2 as int % 64)
            == Scan(0, 0, 0, st.out + [b0, b1, b2])
  {
    var v0, v1 := b0 as int / 4, b0 as int % 4 * 16 + b1 as int / 16;
    var v2, v3 := b1 as int % 16 * 4 + b2 as int / 64, b2 as int % 64;
    FirstByte(b0 as int, b1 as int);
    SecondByte(b1 as int, b2 as int);
    ThirdByte(b2 as int);
    var st1 := Feed(st, v0);
    var st2 := Feed(st1, v1);
    var st3 := Feed(st2, v2);
    assert st2 == Scan(2, v1 % 16, 0, st.out + [b0]);
    assert st3 == Scan(3, v2 % 4, 0, st.out + [b0, b1]);
  }

  /** Four data characters in a row feed their sextets in order. */
  lemma {:induction false} RunFour(c0: char, c1: char, c2: char, c3: char, rest: string, st: Scan)
    requires Sextet(c0) >= 0 && Sextet(c1) >= 0 && Sextet(c2) >= 0 && Sextet(c3) >= 0
    ensures Run([c0, c1, c2, c3] + rest, st)
         == Run(rest, Feed(Feed(Feed(Feed(st, Sextet(c0)), Sextet(c1)), Sextet(c2)), Sextet(c3)))
  {
    assert [c0, c1, c2, c3] + rest == [c0] + ([c1] + ([c2] + ([c3] + rest)));
    RunData(c0, [c1] + ([c2] + ([c3] + rest)), st);
    var st1 := Feed(st, Sextet(c0));
    RunData(c1, [c2] + ([c3] + rest), st1);
    var st2 := Feed(st1, Sextet(c1));
    RunData(c2, [c3] + rest, st2);
    RunData(c3, rest, Feed(st2, Sextet(c2)));
  }

  /** A full quantum: four data characters give back three bytes and a fresh quantum. */
  lemma {:induction false} RunThree(b0: byte, b1: byte, b2: byte, rest: string, st: Scan)
    requires st.quad == 0
    ensures Run(Encode([b0, b1, b2]) + rest, st) == Run(rest, Scan(0, 0, 0, st.out + [b0, b1, b2]))
  {
    var v0, v1 := b0 as int / 4, b0 as int % 4 * 16 + b1 as int / 16;
    var v2, v3 := b1 as int % 16 * 4 + b2 as int / 64, b2 as int % 64;
    EncodeThree(b0, b1, b2);
    assert Encode([b0, b1, b2]) == [UrlSafeChar(v0), UrlSafeChar(v1), UrlSafeChar(v2), UrlSafeChar(v3)];
    RunFour(UrlSafeChar(v0), UrlSafeChar(v1), UrlSafeChar(v2), UrlSafeChar(v3), rest, st);
    FeedQuantum(b0, b1, b2, st);
  }

  /** The encoding works a quantum at a time, and the padding depends on the last quantum only. */
  lemma {:induction false} QuantumShift(n: nat)
    ensures (n + 4) % 4 == n % 4
  {
  }

  lemma {:induction false} EncodeUnfold(b: seq<byte>)
    requires |b| >= 3
    ensures Encode(b) == Quantum(b[0], b[1], b[2]) + Encode(b[3..])
  {
  }

  lemma {:induction false} EncodeHead(b: seq<byte>)
    requires |b| >= 3
    ensures Encode(b[..3]) == Quantum(b[0], b[1], b[2])
  {
    assert b[..3] == [b[0], b[1], b[2]];
    EncodeThree(b[0], b[1], b[2]);
  }

  lemma {:induction false} ConcatAssoc(a: string, b: string, c: string)
    ensures (a + b) + c == a + (b + c)
  {
  }

  lemma {:induction false} PadAfter(q: string, t: string)
    requires |q| == 4
    ensures (q + t) + Padding(|q + t| % 4) == q + (t + Padding(|t| % 4))
  {
    QuantumShift(|t|);
    ConcatAssoc(q, t, Padding(|t| % 4));
  }

  lemma {:induction false} EncodeSplit(b: seq<byte>)
    requires |b| >= 3
    ensures |Encode(b[..3])| == 4
    ensures Encode(b) + Padding(|Encode(b)| % 4)
         == Encode(b[..3]) + (Encode(b[3..]) + Padding(|Encode(b[3..])| % 4))
  {
    EncodeUnfold(b);
    EncodeHead(b);
    PadAfter(Quantum(b[0], b[1], b[2]), Encode(b[3..]));
  }

  /** The padded encoding of at most two bytes decodes back to them. */
  lemma {:induction false} RunEncodedShort(b: seq<byte>, st: Scan)
    requires st.quad == 0 && |b| < 3
    ensures Run(Encode(b) + Padding(|Encode(b)| % 4), st) == Some(st.out + b)
  {
    if |b| == 0 {
      assert Encode(b) + Padding(0) == "";
      assert st.out + b == st.out;
    } else if |b| == 1 {
      RunOneOf(b, st);
    } else {
      RunTwoOf(b, st);
    }
  }

  lemma {:induction false} RunOneOf(b: seq<byte>, st: Scan)
    requires st.quad == 0 && |b| == 1
    ensures Run(Encode(b) + Padding(|Encode(b)| % 4), st) == Some(st.out + b)
  {
    assert b == [b[0]];
    assert |Encode(b)| % 4 == 2;
    RunOne(b[0], st);
  }

  lemma {:induction false} RunTwoOf(b: seq<byte>, st: Scan)
    requires st.quad == 0 && |b| == 2
    ensures Run(Encode(b) + Padding(|Encode(b)| % 4), st) == Some(st.out + b)
  {
    assert b == [b[0], b[1]];
    assert |Encode(b)| % 4 == 3;
    RunTwo(b[0], b[1], st);
  }

  lemma {:induction false} TakeThree(b: seq<byte>)
    requires |b| >= 3
    ensures b[..3] == [b[0], b[1], b[2]] && b[..3] + b[3..] == b
  {
  }

  /** One quantum of the induction: the first three bytes come back, then the rest decodes as before. */
  lemma {:induction false} RunEncodedStep(b: seq<byte>, st: Scan)
    requires st.quad == 0 && |b| >= 3
    requires Run(Encode(b[3..]) + Padding(|Encode(b[3..])| % 4), Scan(0, 0, 0, st.out + b[..3]))
          == Some((st.out + b[..3]) + b[3..])
    ensures Run(Encode(b) + Padding(|Encode(b)| % 4), st) == Some(st.out + b)
  {
    var head, tail := b[..3], b[3..];
    var rest := Encode(tail) + Padding(|Encode(tail)| % 4);
    EncodeSplit(b);
    TakeThree(b);
    var st' := Scan(0, 0, 0, st.out + head);
    RunThree(b[0], b[1], b[2], rest, st);
    assert Run(Encode(b) + Padding(|Encode(b)| % 4), st) == Run(rest, st');
    assert st'.out + tail == st.out + b;
  }

  /** Decoding the encoding of `b`, padded as Django pads it, appends exactly `b`. */
  lemma {:induction false} RunEncoded(b: seq<byte>, st: Scan)
    requires st.quad == 0
    ensures Run(Encode(b) + Padding(|Encode(b)| % 4), st) == Some(st.out + b)
    decreases |b|
  {
    if |b| < 3 {
      RunEncodedShort(b, st);
    } else {
      RunEncoded(b[3..], Scan(0, 0, 0, st.out + b[..3]));
      RunEncodedStep(b, st);
    }
  }

  lemma {:induction false} EncodeAscii(b: seq<byte>)
    ensures Utf8Length(Encode(b)) == |Encode(b)|
  {
    var e := Encode(b);
    forall c | c in e ensures IsAscii(c) {
      assert IsUrlSafe(c);
    }
  }

  /** Round trip: `urlsafe_base64_decode(urlsafe_base64_encode(b)) == b`. */
  lemma {:induction false} DecodeEncode(b: seq<byte>)
    ensures Decode(Encode(b)) == Some(b)
  {
    EncodeAscii(b);
    RunEncoded(b, Scan(0, 0, 0, []));
    assert [] + b == b;
  }

  /** Two data characters followed by two pads end the decoding with one byte. */
  lemma {:induction false} RunTwoChars(c0: char, c1: char, st: Scan)
    requires Sextet(c0) >= 0 && Sextet(c1) >= 0 && st.quad == 0
    ensures Run([c0, c1, '=', '='], st)
         == Some(st.out + [((Sextet(c0) * 4 + Sextet(c1) / 16) % 256) as byte])
  {
    assert [c0, c1, '=', '='] == [c0] + ([c1] + "==");
    RunData(c0, [c1] + "==", st);
    var st1 := Feed(st, Sextet(c0));
    RunData(c1, "==", st1);
    var st2 := Feed(st1, Sextet(c1));
    assert st2.quad == 2 && st2.pads == 0;
    assert Run("==", st2) == Run("=", st2.(pads := 1));
  }

  /** An unpadded pair of data characters decodes to one byte. */
  lemma {:induction false} DecodeTwoChars(c0: char, c1: char)
    requires Sextet(c0) >= 0 && Sextet(c1) >= 0
    ensures Decode([c0, c1]) == Some([((Sextet(c0) * 4 + Sextet(c1) / 16) % 256) as byte])
  {
    assert Utf8Length([c0, c1]) == 2;
    assert [c0, c1] + Padding(2) == [c0, c1, '=', '='];
    assert Decode([c0, c1]) == Run([c0, c1, '=', '='], Scan(0, 0, 0, []));
    RunTwoChars(c0, c1, Scan(0, 0, 0, []));
    var x := ((Sextet(c0) * 4 + Sextet(c1) / 16) % 256) as byte;
    assert [] + [x] == [x];
  }

  /** The same pair with its padding already present decodes to the same byte. */
  lemma {:induction false} DecodeTwoCharsPadded(c0: char, c1: char)
    requires Sextet(c0) >= 0 && Sextet(c1) >= 0
    ensures Decode([c0, c1, '=', '=']) == Decode([c0, c1])
  {
    assert Utf8Length([c0, c1, '=', '=']) == 4;
    assert [c0, c1, '=', '='] + Padding(0) == [c0, c1, '=', '='];
    assert Decode([c0, c1, '=', '=']) == Run([c0, c1, '=', '='], Scan(0, 0, 0, []));
    RunTwoChars(c0, c1, Scan(0, 0, 0, []));
    var x := ((Sextet(c0) * 4 + Sextet(c1) / 16) % 256) as byte;
    assert [] + [x] == [x];
    DecodeTwoChars(c0, c1);
  }

  /**
   * The decoder is lenient: "MR" is not what the encoder produces for any input
   * (its last character carries non-zero spare bits), yet it decodes like "MQ".
   */
  lemma {:induction false} DecodeIsLenient()
    ensures Encode([49]) == "MQ"
    ensures Decode("MQ") == Some([49]) && Decode("MQ==") == Some([49]) && Decode("MR") == Some([49])
  {
    DecodeTwoChars('M', 'Q');
    DecodeTwoCharsPadded('M', 'Q');
    DecodeTwoChars('M', 'R');
  }

  /** A single data character can never be decoded. */
  lemma {:induction false} DecodeRejectsOneChar(c: char)
    requires Sextet(c) >= 0
    ensures Decode([c]) == None
  {
    assert Utf8Length([c]) == 1;
    var st1 := Feed(Scan(0, 0, 0, []), Sextet(c));
    assert [c] + Padding(1) == [c] + "=";
    assert Run("=", st1) == Run("", st1);
  }
}
