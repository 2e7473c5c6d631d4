/**
  Base64 as the etcd gateway writes keys and values (src/store.rs, `b64` and `unb64`), against section 4 of
  RFC 4648: the octets, read as one number and shifted left to fill the last sextet, are the sextets, read as
  one number. Shifts and masks of the source are products, quotients and remainders of powers of two here;
  `|` joins operands with no bit in common, so it is a sum.
*/
module Base64 {
  import opened Wrappers

  type Byte = n: nat | n < 256
  type Sextet = n: nat | n < 64

  /** The digits of one number, the highest first. */
  function Number(digits: seq<nat>, base: nat): nat {
    if digits == [] then 0 else Number(digits[..|digits| - 1], base) * base + digits[|digits| - 1]
  }

  /** The low `count` octets of a number, the highest first. */
  function OctetsOf(n: nat, count: nat): seq<Byte> {
    if count == 0 then [] else OctetsOf(n / 256, count - 1) + [n % 256]
  }

  lemma {:induction false} OctetsOfNumber(d: seq<Byte>)
    ensures OctetsOf(Number(d, 256), |d|) == d
  {
    if d != [] {
      OctetsOfNumber(d[..|d| - 1]);
    }
  }

  lemma {:induction false} NumberSnoc(d: seq<nat>, v: nat, base: nat)
    ensures Number(d + [v], base) == Number(d, base) * base + v
  {
    assert (d + [v])[..|d|] == d;
  }

  // -------------------------------------------------------------- encoding

  /** The alphabet: the upper- and lower-case letters, the digits, `+` and `/`. */
  function Char(v: Sextet): char {
    if v < 26 then ('A' as int + v) as char
    else if v < 52 then ('a' as int + v - 26) as char
    else if v < 62 then ('0' as int + v - 52) as char
    else if v == 62 then '+'
    else '/'
  }

  function Octet(g: seq<Byte>, i: nat): Byte {
    if i < |g| then g[i] else 0
  }

  /** The 24-bit number of a group of at most three octets: the source's fold of shifted octets. */
  function GroupNumber(g: seq<Byte>): nat {
    0x1_0000 * Octet(g, 0) + 0x100 * Octet(g, 1) + Octet(g, 2)
  }

  /** The sextets of three octets: their 24 bits, cut every six. */
  function SextetAt(a: Byte, b: Byte, c: Byte, i: nat): Sextet {
    if i == 0 then a / 4 else if i == 1 then a % 4 * 16 + b / 16 else if i == 2 then b % 16 * 4 + c / 64 else c % 64
  }

  lemma {:induction false} Quotient(n: nat, d: nat, q: nat)
    requires d > 0 && q * d <= n < q * d + d
    ensures n / d == q
  {
    if n / d < q {
      assert (n / d + 1) * d <= q * d by { MulMonotone(n / d + 1, q, d); }
      assert false;
    }
    if n / d > q {
      assert (q + 1) * d <= n / d * d by { MulMonotone(q + 1, n / d, d); }
      assert false;
    }
  }

  lemma {:induction false} MulMonotone(a: nat, b: nat, c: nat)
    requires a <= b
    ensures a * c <= b * c
  {
  }

  /** What the source shifts and masks out of the number are those sextets. */
  lemma {:induction false} ShiftedOut(a: Byte, b: Byte, c: Byte)
    ensures var n := 0x1_0000 * a + 0x100 * b + c;
            && n / 0x4_0000 % 64 == SextetAt(a, b, c, 0)
            && n / 0x1000 % 64 == SextetAt(a, b, c, 1)
            && n / 64 % 64 == SextetAt(a, b, c, 2)
            && n % 64 == SextetAt(a, b, c, 3)
  {
    var n := 0x1_0000 * a + 0x100 * b + c;
    Quotient(n, 0x4_0000, a / 4);
    Quotient(n, 0x1000, a * 16 + b / 16);
    Quotient(n, 64, a * 1024 + b * 4 + c / 64);
    Quotient(a * 16 + b / 16, 64, a / 4);
    Quotient(a * 1024 + b * 4 + c / 64, 64, a * 16 + b / 16);
    Quotient(n, 64, a * 1024 + b * 4 + c / 64);
  }

  /** One sextet more than the group has octets. */
  function GroupSextets(g: seq<Byte>): seq<Sextet> {
    seq(|g| + 1, i requires i >= 0 => SextetAt(Octet(g, 0), Octet(g, 1), Octet(g, 2), i))
  }

  /** Where the last group of `n` octets begins. */
  function LastGroup(n: nat): (k: nat)
    requires n > 0
    ensures k < n <= k + 3 && k % 3 == 0
  {
    (n - 1) / 3 * 3
  }

  function Sextets(d: seq<Byte>): seq<Sextet> {
    if d == [] then [] else Sextets(d[..LastGroup(|d|)]) + GroupSextets(d[LastGroup(|d|)..])
  }

  function Chars(vs: seq<Sextet>): string {
    seq(|vs|, i requires 0 <= i < |vs| => Char(vs[i]))
  }

  function Pad(n: nat): string {
    seq(n, _ => '=')
  }

  /** The characters `=` after the text of `n` octets. */
  function Padding(n: nat): nat {
    (3 - n % 3) % 3
  }

  /** The text of `d`: its sextets as characters, padded to a multiple of four. */
  function Encoded(d: seq<Byte>): string {
    Chars(Sextets(d)) + Pad(Padding(|d|))
  }

  /** What the zero bits that fill the last sextet of `n` octets multiply their number by. */
  function Fill(n: nat): nat {
    if n % 3 == 1 then 16 else if n % 3 == 2 then 4 else 1
  }

  /** Digits one after the other. */
  lemma {:induction false} TwoDigits(s: seq<nat>, v: nat, w: nat, base: nat)
    ensures Number(s + [v] + [w], base) == (Number(s, base) * base + v) * base + w
  {
    NumberSnoc(s, v, base);
    NumberSnoc(s + [v], w, base);
  }

  lemma {:induction false} ThreeDigits(s: seq<nat>, v: nat, w: nat, x: nat, base: nat)
    ensures Number(s + [v] + [w] + [x], base) == ((Number(s, base) * base + v) * base + w) * base + x
  {
    TwoDigits(s, v, w, base);
    NumberSnoc(s + [v] + [w], x, base);
  }

  lemma {:induction false} FourDigits(s: seq<nat>, v: nat, w: nat, x: nat, y: nat, base: nat)
    ensures Number(s + [v] + [w] + [x] + [y], base) == (((Number(s, base) * base + v) * base + w) * base + x) * base + y
  {
    ThreeDigits(s, v, w, x, base);
    NumberSnoc(s + [v] + [w] + [x], y, base);
  }

  /** A byte is its upper and lower bits. */
  lemma {:induction false} CutOne(n: int, v: int, r: int)
    ensures (n * 64 + v) * 64 + r * 16 == (n * 256 + (4 * v + r)) * 16
  {
  }

  lemma {:induction false} CutTwo(n: int, v: int, r: int, q: int, t: int)
    ensures ((n * 64 + v) * 64 + (r * 16 + q)) * 64 + t * 4 == ((n * 256 + (4 * v + r)) * 256 + (16 * q + t)) * 4
  {
  }

  lemma {:induction false} GroupOfOne(s: seq<nat>, d: seq<nat>, a: Byte)
    requires Number(s, 64) == Number(d, 256)
    ensures Number(s + GroupSextets([a]), 64) == Number(d + [a], 256) * 16
  {
    var v, w := a / 4, a % 4 * 16;
    assert s + GroupSextets([a]) == s + [v] + [w];
    TwoDigits(s, v, w, 64);
    NumberSnoc(d, a, 256);
    CutOne(Number(d, 256), v, a % 4);
  }

  lemma {:induction false} GroupOfTwo(s: seq<nat>, d: seq<nat>, a: Byte, b: Byte)
    requires Number(s, 64) == Number(d, 256)
    ensures Number(s + GroupSextets([a, b]), 64) == Number(d + [a, b], 256) * 4
  {
    var v, w, x := a / 4, a % 4 * 16 + b / 16, b % 16 * 4;
    assert s + GroupSextets([a, b]) == s + [v] + [w] + [x];
    assert d + [a, b] == d + [a] + [b];
    ThreeDigits(s, v, w, x, 64);
    TwoDigits(d, a, b, 256);
    CutTwo(Number(d, 256), v, a % 4, b / 16, b % 16);
  }

  /** Three octets, cut as 6 + 2, 4 + 4 and 2 + 6 bits. */
  lemma {:induction false} CutBits(n: int, v: int, r: int, q: int, t: int, u: int, y: int)
    ensures (((n * 64 + v) * 64 + (r * 16 + q)) * 64 + (t * 4 + u)) * 64 + y
            == ((n * 256 + (4 * v + r)) * 256 + (16 * q + t)) * 256 + (64 * u + y)
  {
  }

  lemma {:induction false} GroupOfThree(s: seq<nat>, d: seq<nat>, a: Byte, b: Byte, c: Byte)
    requires Number(s, 64) == Number(d, 256)
    ensures Number(s + GroupSextets([a, b, c]), 64) == Number(d + [a, b, c], 256)
  {
    var v, w, x, y := a / 4, a % 4 * 16 + b / 16, b % 16 * 4 + c / 64, c % 64;
    assert s + GroupSextets([a, b, c]) == s + [v] + [w] + [x] + [y];
    assert d + [a, b, c] == d + [a] + [b] + [c];
    FourDigits(s, v, w, x, y, 64);
    ThreeDigits(d, a, b, c, 256);
    CutBits(Number(d, 256), v, a % 4, b / 16, b % 16, c / 64, y);
  }

  lemma {:induction false} GroupAppends(s: seq<nat>, d: seq<nat>, g: seq<Byte>)
    requires Number(s, 64) == Number(d, 256) && 1 <= |g| <= 3
    ensures Number(s + GroupSextets(g), 64) == Number(d + g, 256) * Fill(|g|)
  {
    if |g| == 1 {
      assert g == [g[0]];
      GroupOfOne(s, d, g[0]);
    } else if |g| == 2 {
      assert g == [g[0], g[1]];
      GroupOfTwo(s, d, g[0], g[1]);
    } else {
      assert g == [g[0], g[1], g[2]];
      GroupOfThree(s, d, g[0], g[1], g[2]);
    }
  }

  lemma {:induction false} FillOfMore(k: nat, g: nat)
    requires k % 3 == 0
    ensures Fill(k + g) == Fill(g) && Fill(k) == 1
  {
  }

  /**
    Section 4 of RFC 4648: the sextets are the octets as one number, shifted left by the zero bits that
    fill the last sextet, and the text is padded to whole groups of four characters.
  */
  lemma {:induction false} EncodedIsTheNumber(d: seq<Byte>)
    ensures Number(Sextets(d), 64) == Number(d, 256) * Fill(|d|)
  {
    if d != [] {
      var k := LastGroup(|d|);
      EncodedIsTheNumber(d[..k]);
      FillOfMore(k, |d| - k);
      GroupAppends(Sextets(d[..k]), d[..k], d[k..]);
      assert d == d[..k] + d[k..];
    }
  }

  /** Sextets for `n` octets. */
  function SextetCount(n: nat): nat {
    n / 3 * 4 + if n % 3 == 0 then 0 else n % 3 + 1
  }

  lemma {:induction false} CountOfMore(k: nat, g: nat)
    requires k % 3 == 0 && 1 <= g <= 3
    ensures SextetCount(k + g) == k / 3 * 4 + g + 1 && SextetCount(k) == k / 3 * 4
  {
    var q := k / 3;
    assert k == 3 * q;
    if g == 3 {
      assert (k + g) / 3 == q + 1 && (k + g) % 3 == 0;
    } else {
      assert (k + g) / 3 == q && (k + g) % 3 == g;
    }
  }

  lemma {:induction false} SextetsCounted(d: seq<Byte>)
    ensures |Sextets(d)| == SextetCount(|d|)
  {
    if d != [] {
      var k := LastGroup(|d|);
      SextetsCounted(d[..k]);
      CountOfMore(k, |d| - k);
    }
  }

  lemma {:induction false} PaddedCount(n: nat)
    ensures var t := SextetCount(n) + Padding(n); t % 4 == 0 && 0 <= 3 * t - 4 * n <= 8
  {
    var q, r := n / 3, n % 3;
    assert n == 3 * q + r;
    if r == 0 {
      assert SextetCount(n) + Padding(n) == 4 * q;
    } else {
      assert Padding(n) == 3 - r;
      assert SextetCount(n) + Padding(n) == 4 * (q + 1);
    }
  }

  /** As many sextets as the bits need, and a text of whole groups of four. */
  lemma {:induction false} EncodedLength(d: seq<Byte>)
    ensures |Sextets(d)| == SextetCount(|d|)
    ensures |Encoded(d)| % 4 == 0 && 0 <= 3 * |Encoded(d)| - 4 * |d| <= 8
  {
    SextetsCounted(d);
    PaddedCount(|d|);
  }

  /** The encoder: a loop over groups, and in it one over the four characters. */
  method B64(data: seq<Byte>) returns (out: string)
    ensures out == Encoded(data)
  {
    out := "";
    var i := 0;
    while i < |data|
      invariant 0 <= i <= |data| && (i < |data| ==> i % 3 == 0)
      invariant out == Encoded(data[..i])
    {
      var end := if i + 3 <= |data| then i + 3 else |data|;
      var text := B64Group(data[i..end]);
      out := out + text;
      EncodedStep(data[..i], data[i..end]);
      assert data[..end] == data[..i] + data[i..end];
      i := end;
    }
    assert data[..|data|] == data;
  }

  method B64Group(chunk: seq<Byte>) returns (out: string)
    requires 1 <= |chunk| <= 3
    ensures out == Chars(GroupSextets(chunk)) + Pad(3 - |chunk|)
  {
    var n := GroupNumber(chunk);
    ShiftedOut(Octet(chunk, 0), Octet(chunk, 1), Octet(chunk, 2));
    ghost var text := Chars(GroupSextets(chunk)) + Pad(3 - |chunk|);
    out := "";
    var i := 0;
    while i < 4
      invariant 0 <= i <= 4
      invariant out == text[..i]
    {
      var c := if i <= |chunk| then Char(n / Shift(i) % 64) else '=';
      assert c == text[i];
      out := out + [c];
      i := i + 1;
    }
  }

  /** 2 to the power 18 - 6i. */
  function Shift(i: nat): (d: nat)
    ensures d > 0
  {
    if i == 0 then 0x4_0000 else if i == 1 then 0x1000 else if i == 2 then 64 else 1
  }

  lemma {:induction false} LastGroupOfMore(n: nat, g: nat)
    requires n % 3 == 0 && 1 <= g <= 3
    ensures LastGroup(n + g) == n
  {
  }

  lemma {:induction false} SextetsOfMore(d: seq<Byte>, g: seq<Byte>)
    requires |d| % 3 == 0 && 1 <= |g| <= 3
    ensures Sextets(d + g) == Sextets(d) + GroupSextets(g)
  {
    var e := d + g;
    LastGroupOfMore(|d|, |g|);
    assert e[..|d|] == d && e[|d|..] == g;
  }

  lemma {:induction false} PaddingOfMore(n: nat, g: nat)
    requires n % 3 == 0 && 1 <= g <= 3
    ensures Padding(n) == 0 && Padding(n + g) == 3 - g
  {
  }

  lemma {:induction false} EncodedStep(d: seq<Byte>, g: seq<Byte>)
    requires |d| % 3 == 0 && 1 <= |g| <= 3
    ensures Encoded(d + g) == Encoded(d) + (Chars(GroupSextets(g)) + Pad(3 - |g|))
  {
    SextetsOfMore(d, g);
    PaddingOfMore(|d|, |g|);
    assert Chars(Sextets(d + g)) == Chars(Sextets(d)) + Chars(GroupSextets(g));
  }

  // -------------------------------------------------------------- decoding

  predicate Skipped(c: char) {
    c == ' ' || c == '\t' || c == '\n' || c == '\r' || c as int == 12 || c == '='
  }

  /** The value of a character, the two of the URL alphabet taken as well. */
  function Value(c: char): Option<Sextet> {
    if 'A' <= c <= 'Z' then Some(c as int - 'A' as int)
    else if 'a' <= c <= 'z' then Some(c as int - 'a' as int + 26)
    else if '0' <= c <= '9' then Some(c as int - '0' as int + 52)
    else if c == '+' || c == '-' then Some(62)
    else if c == '/' || c == '_' then Some(63)
    else None
  }

  /** The values of a text, or none when a character is neither skipped nor of an alphabet. */
  function Values(s: string): Option<seq<Sextet>> {
    if s == "" then Some([])
    else
      var init, c := Values(s[..|s| - 1]), s[|s| - 1];
      if init.None? || Skipped(c) then init
      else if Value(c).None? then None
      else Some(init.value + [Value(c).value])
  }

  datatype Decoder = Decoder(out: seq<Byte>, acc: nat, bits: nat)

  /** 2 to the power of a bit count the decoder can be at. */
  function Room(bits: nat): nat {
    if bits == 0 then 1 else if bits == 2 then 4 else if bits == 4 then 16 else 64
  }

  /** One value shifted in, and an octet shifted out when there are eight bits. */
  function Feed(d: Decoder, v: Sextet): Decoder {
    var acc, bits := d.acc * 64 + v, d.bits + 6;
    if bits >= 8 then Decoder(d.out + [acc / Room(bits - 8) % 256], acc % Room(bits - 8), bits - 8)
    else Decoder(d.out, acc, bits)
  }

  /** The octets shifted out and the bits still held are all the bits of the values fed. */
  ghost predicate Holds(d: Decoder, vs: seq<Sextet>) {
    && (d.bits == 0 || d.bits == 2 || d.bits == 4 || d.bits == 6)
    && d.acc < Room(d.bits)
    && 6 * |vs| == 8 * |d.out| + d.bits
    && Number(vs, 64) == Number(d.out, 256) * Room(d.bits) + d.acc
  }

  /** One more value keeps that, with the accumulator below 2^14 and its bits below 14 while it is in. */
  lemma {:induction false} FeedHolds(d: Decoder, vs: seq<Sextet>, v: Sextet)
    requires Holds(d, vs)
    ensures d.acc * 64 + v < 0x4000 && d.bits + 6 < 14
    ensures Holds(Feed(d, v), vs + [v])
  {
    NumberSnoc(vs, v, 64);
    if d.bits != 0 { ShiftOut(d, d.acc * 64 + v, Number(vs + [v], 64)); }
  }

  lemma {:induction false} ShiftOut(d: Decoder, acc: nat, n: nat)
    requires (d.bits == 2 && acc < 256) || (d.bits == 4 && acc < 1024) || (d.bits == 6 && acc < 4096)
    requires n == Number(d.out, 256) * Room(d.bits) * 64 + acc
    ensures var p := Room(d.bits - 2);
            var hi := acc / p;
            && hi < 256 && hi % 256 == hi && acc % p < p
            && n == Number(d.out + [hi], 256) * p + acc % p
  {
    var m := Number(d.out, 256);
    if d.bits == 2 {
      NumberSnoc(d.out, acc, 256);
    } else if d.bits == 4 {
      NumberSnoc(d.out, acc / 4, 256);
      assert n == (m * 256 + acc / 4) * 4 + acc % 4;
    } else {
      NumberSnoc(d.out, acc / 16, 256);
      assert n == (m * 256 + acc / 16) * 16 + acc % 16;
    }
  }

  /** What a text stands for: the octets its sextets hold whole, or an error for a foreign character. */
  function Decoded(s: string): Option<seq<Byte>> {
    match Values(s)
    case None => None
    case Some(vs) => Some(OctetsOf(Number(vs, 64) / Room(6 * |vs| % 8), 6 * |vs| / 8))
  }

  /** The decoder, on any text. `u32` never overflows: `FeedHolds` bounds what the loop computes. */
  method Unb64(s: string) returns (r: Result<seq<Byte>, ()>)
    ensures r == match Decoded(s) case Some(d) => Ok(d) case None => Err(())
  {
    var d := Decoder([], 0, 0);
    ghost var vs: seq<Sextet> := [];
    var i := 0;
    while i < |s|
      invariant 0 <= i <= |s|
      invariant Values(s[..i]) == Some(vs)
      invariant Holds(d, vs)
    {
      var c := s[i];
      assert s[..i + 1][..i] == s[..i];
      if !Skipped(c) {
        var v := Value(c);
        if v.None? {
          ForeignStays(s, i + 1);
          return Err(());
        }
        FeedHolds(d, vs, v.value);
        d, vs := Feed(d, v.value), vs + [v.value];
      }
      i := i + 1;
    }
    assert s[..|s|] == s;
    assert 6 * |vs| / 8 == |d.out| && 6 * |vs| % 8 == d.bits;
    Quotient(Number(vs, 64), Room(d.bits), Number(d.out, 256));
    OctetsOfNumber(d.out);
    r := Ok(d.out);
  }

  lemma {:induction false} ForeignStays(s: string, i: nat)
    requires i <= |s| && Values(s[..i]).None?
    ensures Values(s).None?
    decreases |s| - i
  {
    if i < |s| {
      assert s[..i + 1][..i] == s[..i];
      ForeignStays(s, i + 1);
    } else {
      assert s[..i] == s;
    }
  }

  // ------------------------------------------------------------ round trip

  lemma {:induction false} CharReadBack(v: Sextet)
    ensures !Skipped(Char(v)) && Value(Char(v)) == Some(v)
  {
  }

  lemma {:induction false} ValuesOfChars(vs: seq<Sextet>, pad: nat)
    ensures Values(Chars(vs) + Pad(pad)) == Some(vs)
    decreases |vs| + pad
  {
    var s := Chars(vs) + Pad(pad);
    if pad > 0 {
      assert s[..|s| - 1] == Chars(vs) + Pad(pad - 1);
      ValuesOfChars(vs, pad - 1);
    } else if vs != [] {
      var v := vs[|vs| - 1];
      assert s[..|s| - 1] == Chars(vs[..|vs| - 1]) + Pad(0) && s[|s| - 1] == Char(v);
      ValuesOfChars(vs[..|vs| - 1], 0);
      CharReadBack(v);
      assert vs == vs[..|vs| - 1] + [v];
    }
  }

  /** The bits of `n` octets' sextets: whole octets, and the zero bits that fill the last sextet. */
  lemma {:induction false} BitsLeft(n: nat)
    ensures var t := SextetCount(n); 6 * t / 8 == n && Room(6 * t % 8) == Fill(n)
  {
    var q, r := n / 3, n % 3;
    assert n == 3 * q + r;
    if r == 0 {
      assert 6 * SextetCount(n) == 8 * n;
    } else if r == 1 {
      assert 6 * SextetCount(n) == 8 * n + 4;
    } else {
      assert 6 * SextetCount(n) == 8 * n + 2;
    }
  }

  /** Whatever is encoded is decoded to itself. */
  lemma {:induction false} RoundTrip(d: seq<Byte>)
    ensures Decoded(Encoded(d)) == Some(d)
  {
    ValuesOfChars(Sextets(d), Padding(|d|));
    EncodedIsTheNumber(d);
    EncodedLength(d);
    BitsLeft(|d|);
    Quotient(Number(Sextets(d), 64), Fill(|d|), Number(d, 256));
    OctetsOfNumber(d);
  }

  // -------------------------------------------------------------- the text

  function Run(first: char, n: nat): (s: string)
    requires first as int + n < 128
    ensures |s| == n
  {
    seq(n, i requires 0 <= i < n => (first as int + i) as char)
  }

  function Alphabet(): (s: string)
    ensures |s| == 64
  {
    Run('A', 26) + Run('a', 26) + Run('0', 10) + "+/"
  }

  lemma {:induction false} CharIs(v: Sextet)
    ensures Char(v) == Alphabet()[v]
  {
  }

  /** Table 1 of RFC 4648, section 4: each sextet is its character of the alphabet, and what follows is padding. */
  lemma {:induction false} EncodedText(d: seq<Byte>, i: nat)
    requires i < |Encoded(d)|
    ensures |Sextets(d)| == SextetCount(|d|)
    ensures Encoded(d)[i] == if i < SextetCount(|d|) then Alphabet()[Sextets(d)[i]] else '='
  {
    SextetsCounted(d);
    if i < SextetCount(|d|) { CharIs(Sextets(d)[i]); }
  }

  /** Not part of the text: ASCII white space and padding. */
  const BLANKS: set<int> := {9, 10, 12, 13, 32, 61}

  /** The character has the value: at that place in the alphabet, or the URL alphabet's for one of the last two. */
  predicate HasValue(c: char, v: Sextet) {
    Alphabet()[v] == c || (v == 62 && c == '-') || (v == 63 && c == '_')
  }

  lemma {:induction false} ValueIs(c: char)
    ensures Skipped(c) <==> c as int in BLANKS
    ensures forall v: Sextet :: HasValue(c, v) <==> Value(c) == Some(v)
  {
    forall v: Sextet ensures HasValue(c, v) <==> Value(c) == Some(v) { CharIs(v); }
  }

  ghost predicate Foreign(c: char) {
    c as int !in BLANKS && forall v: Sextet :: !HasValue(c, v)
  }

  lemma {:induction false} ForeignIs(c: char)
    ensures Foreign(c) <==> !Skipped(c) && Value(c).None?
  {
    ValueIs(c);
    if Value(c).Some? { assert HasValue(c, Value(c).value); }
  }

  /** A text is an error exactly when it has a character that is neither blank nor of an alphabet. */
  lemma {:induction false} FailsExactly(s: string)
    ensures Decoded(s).None? <==> exists c :: c in s && Foreign(c)
  {
    if s != "" {
      var init, last := s[..|s| - 1], s[|s| - 1];
      FailsExactly(init);
      ForeignIs(last);
      assert forall c :: c in s <==> c in init || c == last;
    }
  }

  /** Blanks are passed over, wherever they are. */
  lemma {:induction false} BlanksDoNotCount(a: string, c: char, b: string)
    requires c as int in BLANKS
    ensures Values(a + [c] + b) == Values(a + b)
  {
    ValueIs(c);
    if b == "" {
      assert a + [c] + b == a + [c] && a + b == a;
      assert (a + [c])[..|a|] == a;
    } else {
      var init := b[..|b| - 1];
      BlanksDoNotCount(a, c, init);
      assert (a + [c] + b)[..|a| + |b|] == a + [c] + init;
      assert (a + b)[..|a| + |b| - 1] == a + init;
    }
  }

  /** A text of no blanks is read character by character. */
  lemma {:induction false} ReadsEach(s: string, vs: seq<Sextet>)
    requires |s| == |vs| && forall i :: 0 <= i < |s| ==> HasValue(s[i], vs[i])
    ensures Values(s) == Some(vs)
  {
    if s != "" {
      var n := |s| - 1;
      ReadsEach(s[..n], vs[..n]);
      ValueIs(s[n]);
      CharIs(vs[n]);
      assert vs == vs[..n] + [vs[n]];
      assert Values(s) == Some(vs);
    }
  }
}
