/**
 The decoy's request fingerprint: 32-bit FNV-1a over method, path and user agent,
 each closed with a bar, printed as eight hexadecimal digits.
 Bytes are characters below 256.
 */
module Fingerprint {

  const MODULUS: nat := 0x1_0000_0000
  const OFFSET_BASIS: nat := 2166136261
  const PRIME: nat := 16777619
  /** The inverse of the prime modulo 2^32. */
  const INVERSE: nat := 899433627

  // ---------- Exclusive or, bit by bit ----------

  /** Exclusive or of the low `bits` bits. */
  function Xor(a: nat, b: nat, bits: nat): nat {
    if bits == 0 then 0 else (if a % 2 == b % 2 then 0 else 1) + 2 * Xor(a / 2, b / 2, bits - 1)
  }

  function Power(base: nat, n: nat): nat { if n == 0 then 1 else base * Power(base, n - 1) }

  lemma {:induction false} XorTwice(a: nat, b: nat, bits: nat)
    requires a < Power(2, bits)
    ensures Xor(a, b, bits) < Power(2, bits)
    ensures Xor(Xor(a, b, bits), b, bits) == a
  {
    if bits > 0 {
      XorTwice(a / 2, b / 2, bits - 1);
      var x := Xor(a, b, bits);
      assert x / 2 == Xor(a / 2, b / 2, bits - 1) && x % 2 == (if a % 2 == b % 2 then 0 else 1);
    }
  }

  lemma {:induction false} XorDistinguishes(a: nat, b: nat, c: nat, bits: nat)
    requires b < Power(2, bits) && c < Power(2, bits) && Xor(a, b, bits) == Xor(a, c, bits)
    ensures b == c
  {
    if bits > 0 {
      var x, y := Xor(a, b, bits), Xor(a, c, bits);
      assert x / 2 == Xor(a / 2, b / 2, bits - 1) && x % 2 == (if a % 2 == b % 2 then 0 else 1);
      assert y / 2 == Xor(a / 2, c / 2, bits - 1) && y % 2 == (if a % 2 == c % 2 then 0 else 1);
      XorDistinguishes(a / 2, b / 2, c / 2, bits - 1);
    }
  }

  function Bit(n: nat, k: nat): nat { if k == 0 then n % 2 else Bit(n / 2, k - 1) }

  /** Bit by bit: set exactly where the two differ. */
  lemma {:induction false} XorBits(a: nat, b: nat, bits: nat, k: nat)
    requires k < bits
    ensures Bit(Xor(a, b, bits), k) == if Bit(a, k) == Bit(b, k) then 0 else 1
  {
    var x := Xor(a, b, bits);
    assert x / 2 == Xor(a / 2, b / 2, bits - 1) && x % 2 == (if a % 2 == b % 2 then 0 else 1);
    if k > 0 {
      XorBits(a / 2, b / 2, bits - 1, k - 1);
    }
  }

  // ---------- One step ----------

  function Mix(hash: nat, byte: char): nat { (Xor(hash, byte as nat, 32) * PRIME) % MODULUS }

  lemma PowerIsModulus()
    ensures Power(2, 32) == MODULUS && Power(2, 8) == 256
  {
    assert Power(2, 8) == 256;
    assert Power(2, 16) == 65536;
    assert Power(2, 24) == 16777216;
  }

  /** Multiplying by the prime loses nothing modulo 2^32. */
  lemma PrimeInvertible(h: nat)
    requires h < MODULUS
    ensures ((h * PRIME) % MODULUS * INVERSE) % MODULUS == h
  {
    var k, r := h * PRIME / MODULUS, (h * PRIME) % MODULUS;
    assert h * PRIME == MODULUS * k + r;
    var j := PRIME * INVERSE / MODULUS;
    assert PRIME * INVERSE == MODULUS * j + 1;
    calc {
      r * INVERSE;
      (h * PRIME - MODULUS * k) * INVERSE;
      h * (PRIME * INVERSE) - MODULUS * k * INVERSE;
      h * (MODULUS * j + 1) - MODULUS * k * INVERSE;
      MODULUS * (h * j - k * INVERSE) + h;
    }
    QuotientUnique(h * j - k * INVERSE, h);
  }

  lemma QuotientUnique(q: int, h: nat)
    requires h < MODULUS
    ensures (MODULUS * q + h) % MODULUS == h
  {
  }

  /** For a fixed byte a step is injective in the hash; for a fixed hash, in the byte. */
  lemma MixInjective(g: nat, h: nat, b: char, c: char)
    requires g < MODULUS && h < MODULUS && b as nat < 256 && c as nat < 256
    requires Mix(g, b) == Mix(h, c)
    ensures b == c ==> g == h
    ensures g == h ==> b == c
  {
    PowerIsModulus();
    XorTwice(g, b as nat, 32);
    XorTwice(h, c as nat, 32);
    PrimeInvertible(Xor(g, b as nat, 32));
    PrimeInvertible(Xor(h, c as nat, 32));
    if g == h {
      XorDistinguishes(g, b as nat, c as nat, 32);
    }
  }

  // ---------- The whole hash ----------

  function MixAll(hash: nat, text: string): nat {
    if |text| == 0 then hash else Mix(MixAll(hash, text[..|text| - 1]), text[|text| - 1])
  }

  function HashText(verb: string, path: string, agent: string): string { verb + "|" + path + "|" + agent + "|" }

  function Hash(verb: string, path: string, agent: string): nat { MixAll(OFFSET_BASIS, HashText(verb, path, agent)) }

  ghost predicate Bytes(s: string) { forall i :: 0 <= i < |s| ==> s[i] as nat < 256 }

  lemma {:induction false} MixAllBounded(hash: nat, text: string)
    requires hash < MODULUS
    ensures MixAll(hash, text) < MODULUS
  {
  }

  /** Texts of one length that differ at exactly one place hash differently. */
  lemma {:induction false} OneByteChangesHash(hash: nat, s: string, t: string, k: nat)
    requires hash < MODULUS && Bytes(s) && Bytes(t)
    requires |s| == |t| && k < |s| && s[k] != t[k]
    requires forall i :: 0 <= i < |s| && i != k ==> s[i] == t[i]
    ensures MixAll(hash, s) != MixAll(hash, t)
  {
    hide Mix;
    var n := |s| - 1;
    MixAllBounded(hash, s[..n]);
    MixAllBounded(hash, t[..n]);
    if MixAll(hash, s) == MixAll(hash, t) {
      MixInjective(MixAll(hash, s[..n]), MixAll(hash, t[..n]), s[n], t[n]);
    }
    if k < n {
      OneByteChangesHash(hash, s[..n], t[..n], k);
    } else {
      assert s[..n] == t[..n];
    }
  }

  lemma XorStep(a: nat, b: nat, bits: nat)
    requires bits > 0
    ensures Xor(a, b, bits) == (if a % 2 == b % 2 then 0 else 1) + 2 * Xor(a / 2, b / 2, bits - 1)
  {
  }

  lemma {:induction false} XorZero(a: nat, bits: nat)
    requires a < Power(2, bits)
    ensures Xor(a, 0, bits) == a
  {
    if bits > 0 {
      XorZero(a / 2, bits - 1);
    }
  }

  lemma XorOfBasis()
    ensures Xor(2166136261, 97, 32) == 2166136228
  {
    hide Xor;
    XorStep(2166136261, 97, 32);
    XorStep(1083068130, 48, 31);
    XorStep(541534065, 24, 30);
    XorStep(270767032, 12, 29);
    XorStep(135383516, 6, 28);
    XorStep(67691758, 3, 27);
    XorStep(33845879, 1, 26);
    assert Power(2, 25) == 33554432 by { assert Power(2, 12) == 4096; }
    XorZero(16922939, 25);
  }

  /** The published hash values of the empty text and of "a". */
  lemma PublishedValues()
    ensures MixAll(OFFSET_BASIS, "") == 0x811c9dc5
    ensures MixAll(OFFSET_BASIS, "a") == 0xe40c292c
  {
    hide Xor;
    XorOfBasis();
    assert "a"[..0] == "";
    assert MixAll(OFFSET_BASIS, "") == OFFSET_BASIS;
    assert MixAll(OFFSET_BASIS, "a") == Mix(OFFSET_BASIS, 'a');
  }

  // ---------- The printed form ----------

  function HexDigit(d: nat): char
    requires d < 16
  {
    "0123456789abcdef"[d]
  }

  /** `%08x`: the low `digits` hexadecimal digits, most significant first. */
  function Hex(n: nat, digits: nat): (s: string)
    ensures |s| == digits
  {
    if digits == 0 then "" else Hex(n / 16, digits - 1) + [HexDigit(n % 16)]
  }

  lemma HexDigitInjective(c: nat, d: nat)
    requires c < 16 && d < 16 && HexDigit(c) == HexDigit(d)
    ensures c == d
  {
    var hex := "0123456789abcdef";
    assert forall i :: 0 <= i < 10 ==> hex[i] as int == '0' as int + i;
    assert forall i :: 10 <= i < 16 ==> hex[i] as int == 'a' as int + i - 10;
  }

  lemma {:induction false} HexInjective(m: nat, n: nat, digits: nat)
    requires m < Power(16, digits) && n < Power(16, digits) && Hex(m, digits) == Hex(n, digits)
    ensures m == n
  {
    hide HexDigit;
    if digits > 0 {
      var s, t := Hex(m, digits), Hex(n, digits);
      assert s[..digits - 1] == Hex(m / 16, digits - 1) && s[digits - 1] == HexDigit(m % 16);
      assert t[..digits - 1] == Hex(n / 16, digits - 1) && t[digits - 1] == HexDigit(n % 16);
      HexInjective(m / 16, n / 16, digits - 1);
      HexDigitInjective(m % 16, n % 16);
    }
  }

  function HexDigitValue(c: char): nat { if '0' <= c <= '9' then c as nat - '0' as nat else if 'a' <= c <= 'f' then c as nat - 'a' as nat + 10 else 0 }

  /** The number that hexadecimal digits stand for, most significant first. */
  function ReadHex(s: string): nat {
    if |s| == 0 then 0 else 16 * ReadHex(s[..|s| - 1]) + HexDigitValue(s[|s| - 1])
  }

  lemma HexDigitReads(d: nat)
    requires d < 16
    ensures HexDigitValue(HexDigit(d)) == d
  {
    var hex := "0123456789abcdef";
    assert forall i :: 0 <= i < 10 ==> hex[i] as int == '0' as int + i;
    assert forall i :: 10 <= i < 16 ==> hex[i] as int == 'a' as int + i - 10;
  }

  /** Printed digits read back as the number. */
  lemma {:induction false} HexReads(n: nat, digits: nat)
    requires n < Power(16, digits)
    ensures ReadHex(Hex(n, digits)) == n
  {
    hide HexDigit, HexDigitValue;
    if digits > 0 {
      var s := Hex(n, digits);
      HexReads(n / 16, digits - 1);
      HexDigitReads(n % 16);
      assert s[..digits - 1] == Hex(n / 16, digits - 1) && s[digits - 1] == HexDigit(n % 16);
    }
  }

  function RequestFingerprint(verb: string, path: string, agent: string): string {
    "fp-" + Hex(Hash(verb, path, agent), 8)
  }

  /** The requests agree in the lengths of their parts and differ in exactly one byte, at
      position `k` of the hashed text. */
  ghost predicate DifferInOneByte(v: string, p: string, a: string, v': string, p': string, a': string, k: nat) {
    && |v| == |v'| && |p| == |p'| && |a| == |a'|
    && var s, t := HashText(v, p, a), HashText(v', p', a');
    && k < |s| == |t| && s[k] != t[k]
    && forall i :: 0 <= i < |s| && i != k ==> s[i] == t[i]
  }

  /** Such requests never collide, in the hash or in the printed fingerprint. */
  lemma OneByteCollisionFree(v: string, p: string, a: string, v': string, p': string, a': string, k: nat)
    requires Bytes(v) && Bytes(p) && Bytes(a) && Bytes(v') && Bytes(p') && Bytes(a')
    requires DifferInOneByte(v, p, a, v', p', a', k)
    ensures Hash(v, p, a) != Hash(v', p', a')
    ensures RequestFingerprint(v, p, a) != RequestFingerprint(v', p', a')
  {
    hide MixAll, Hex;
    var s, t := HashText(v, p, a), HashText(v', p', a');
    assert Bytes(s) && Bytes(t);
    OneByteChangesHash(OFFSET_BASIS, s, t, k);
    MixAllBounded(OFFSET_BASIS, s);
    MixAllBounded(OFFSET_BASIS, t);
    if RequestFingerprint(v, p, a) == RequestFingerprint(v', p', a') {
      assert RequestFingerprint(v, p, a)[3..] == Hex(Hash(v, p, a), 8);
      assert RequestFingerprint(v', p', a')[3..] == Hex(Hash(v', p', a'), 8);
      assert Power(16, 8) == MODULUS;
      HexInjective(Hash(v, p, a), Hash(v', p', a'), 8);
    }
  }

  // ---------- The program ----------

  /** The running hash over one part and its closing bar, byte by byte. */
  method HashPart(hash: nat, part: string) returns (hash': nat)
    ensures hash' == MixAll(hash, part + "|")
  {
    hide Mix;
    hash' := hash;
    for cursor := 0 to |part|
      invariant hash' == MixAll(hash, part[..cursor])
    {
      assert part[..cursor + 1] == part[..cursor] + [part[cursor]];
      MixAppend(hash, part[..cursor], part[cursor]);
      hash' := Mix(hash', part[cursor]);
    }
    assert part[..|part|] == part;
    MixAppend(hash, part, '|');
    hash' := Mix(hash', '|');
  }

  method BuildRequestFingerprint(verb: string, path: string, agent: string) returns (text: string)
    ensures text == RequestFingerprint(verb, path, agent)
    ensures text == "fp-" + Hex(MixAll(2166136261, verb + "|" + path + "|" + agent + "|"), 8)
  {
    hide Mix, MixAll, Closed, Hex;
    var parts := [verb, path, agent];
    var hash := OFFSET_BASIS;
    NothingMixed();
    for part := 0 to 3
      invariant hash == MixAll(OFFSET_BASIS, Closed(parts[..part]))
    {
      MixAllConcat(OFFSET_BASIS, Closed(parts[..part]), parts[part] + "|");
      ClosedNext(parts, part);
      hash := HashPart(hash, parts[part]);
    }
    assert parts[..3] == parts;
    ClosedThree(verb, path, agent);
    text := "fp-" + Hex(hash, 8);
  }

  lemma NothingMixed()
    ensures forall parts: seq<string> :: |parts| == 0 ==> MixAll(OFFSET_BASIS, Closed(parts)) == OFFSET_BASIS
  {
  }

  lemma ClosedNext(parts: seq<string>, i: nat)
    requires i < |parts|
    ensures Closed(parts[..i + 1]) == Closed(parts[..i]) + (parts[i] + "|")
  {
    assert parts[..i + 1][..i] == parts[..i];
  }

  lemma {:induction false} MixAllConcat(hash: nat, s: string, t: string)
    ensures MixAll(hash, s + t) == MixAll(MixAll(hash, s), t)
  {
    hide Mix;
    if |t| == 0 {
      assert s + t == s;
    } else {
      MixAllConcat(hash, s, t[..|t| - 1]);
      assert (s + t)[..|s + t| - 1] == s + t[..|t| - 1];
    }
  }

  /** The parts, each followed by a bar. */
  ghost function Closed(parts: seq<string>): string {
    if |parts| == 0 then "" else Closed(parts[..|parts| - 1]) + parts[|parts| - 1] + "|"
  }

  lemma ClosedThree(a: string, b: string, c: string)
    ensures Closed([a, b, c]) == HashText(a, b, c)
  {
    assert Closed([]) == "";
    assert [a][..0] == [];
    assert Closed([a]) == a + "|";
    assert [a, b][..1] == [a];
    assert Closed([a, b]) == a + "|" + b + "|";
    assert [a, b, c][..2] == [a, b];
  }

  lemma MixAppend(hash: nat, text: string, c: char)
    ensures MixAll(hash, text + [c]) == Mix(MixAll(hash, text), c)
  {
    assert (text + [c])[..|text|] == text;
  }
}
