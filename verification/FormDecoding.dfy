/**
 Reading form fields: percent-decoding into a bounded buffer, the pre-truncation of
 the encoded value, and the round trip with the form encoding of section 8.2.1 of
 RFC 1866 over the percent-encoding of section 2.1 of RFC 3986.
 */
module FormDecoding {
  import opened Options
  import opened CStrings

  // ---------- Decoding ----------

  predicate IsHex(c: char) { '0' <= c <= '9' || 'a' <= c <= 'f' || 'A' <= c <= 'F' }

  function FromHex(c: char): (v: nat)
    ensures v < 16
  {
    if '0' <= c <= '9' then c as nat - '0' as nat
    else if 'a' <= c <= 'f' then c as nat - 'a' as nat + 10
    else if 'A' <= c <= 'F' then c as nat - 'A' as nat + 10
    else 0
  }

  /** The first decoded byte of a non-empty text, and how many bytes it comes from. */
  function DecodeOne(s: string): (r: (char, nat))
    requires s != ""
    ensures 1 <= r.1 <= 3 && r.1 <= |s|
  {
    if s[0] == '+' then (' ', 1)
    else if s[0] == '%' && |s| >= 3 && IsHex(s[1]) && IsHex(s[2]) then
      ((FromHex(s[1]) * 16 + FromHex(s[2])) as char, 3)
    else (s[0], 1)
  }

  /** At most `room` decoded bytes. */
  function Decode(s: string, room: nat): (d: string)
    ensures |d| <= room && |d| <= |s|
    decreases room
  {
    if s == "" || room == 0 then ""
    else [DecodeOne(s).0] + Decode(s[DecodeOne(s).1..], room - 1)
  }

  function DecodeAll(s: string): string { Decode(s, |s|) }

  /** A bounded decode is the beginning of the full one. */
  lemma {:induction false} DecodeIsPrefix(s: string, room: nat, more: nat)
    requires room <= more
    ensures |Decode(s, room)| <= |Decode(s, more)|
    ensures Decode(s, room) == Decode(s, more)[..|Decode(s, room)|]
    ensures |Decode(s, room)| < room ==> Decode(s, more) == Decode(s, room)
    decreases room
  {
    if s != "" && room > 0 {
      DecodeIsPrefix(s[DecodeOne(s).1..], room - 1, more - 1);
    }
  }

  lemma {:induction false} DecodeExhausts(s: string, more: nat)
    requires more >= |s|
    ensures Decode(s, more) == DecodeAll(s)
  {
    DecodeIsPrefix(s, |s|, more);
    if |Decode(s, |s|)| == |s| {
      NoRoomNeeded(s, |s|, more);
    }
  }

  lemma {:induction false} NoRoomNeeded(s: string, room: nat, more: nat)
    requires |s| <= room <= more
    ensures Decode(s, room) == Decode(s, more)
    decreases room
  {
    if s != "" {
      NoRoomNeeded(s[DecodeOne(s).1..], room - 1, more - 1);
    }
  }

  /** A bounded decode keeps exactly the first `room` bytes of the full one. */
  lemma DecodeKeepsFirst(s: string, room: nat)
    ensures Decode(s, room) == if |DecodeAll(s)| <= room then DecodeAll(s) else DecodeAll(s)[..room]
  {
    var more := if room <= |s| then |s| else room;
    DecodeIsPrefix(s, room, more);
    DecodeExhausts(s, more);
  }

  // ---------- Pre-truncation ----------

  /** Cutting after three bytes per decoded byte cannot be noticed. */
  lemma {:induction false} PreTruncationInvisible(s: string, room: nat, keep: nat)
    requires 3 * room <= keep <= |s|
    ensures Decode(s[..keep], room) == Decode(s, room)
    decreases room
  {
    if s != "" && room > 0 {
      var n := DecodeOne(s).1;
      assert s[..keep][0] == s[0] && s[..keep][1] == s[1] && s[..keep][2] == s[2];
      assert DecodeOne(s[..keep]) == DecodeOne(s);
      assert s[..keep][n..] == s[n..][..keep - n];
      PreTruncationInvisible(s[n..], room - 1, keep - n);
    }
  }

  function Repeat(s: string, n: nat): string { if n == 0 then "" else s + Repeat(s, n - 1) }

  lemma {:induction false} RepeatLength(s: string, n: nat)
    ensures |Repeat(s, n)| == |s| * n
  {
    if n > 0 {
      RepeatLength(s, n - 1);
    }
  }

  /** One byte less would be noticed, whatever the capacity. */
  lemma {:induction false} PreTruncationTight(room: nat)
    requires room > 0
    ensures var s := Repeat("%41", room);
            |s| == 3 * room && Decode(s[..3 * room - 1], room) != Decode(s, room)
  {
    hide DecodeOne;
    var s := Repeat("%41", room);
    RepeatLength("%41", room);
    var cut := s[..3 * room - 1];
    if room == 1 {
      assert s == "%41" + "" && cut == "%4";
      PercentFortyOne("");
      assert Decode(cut, 1)[0] == '%' && Decode(s, 1)[0] == 'A';
    } else {
      var rest := Repeat("%41", room - 1);
      RepeatLength("%41", room - 1);
      PreTruncationTight(room - 1);
      var cutRest := rest[..3 * (room - 1) - 1];
      assert cut == "%41" + cutRest;
      PercentFortyOne(rest);
      PercentFortyOne(cutRest);
      assert Decode(s, room)[1..] == Decode(rest, room - 1);
      assert Decode(cut, room)[1..] == Decode(cutRest, room - 1);
    }
  }

  lemma PercentFortyOne(rest: string)
    ensures DecodeOne("%41" + rest) == ('A', 3) && ("%41" + rest)[3..] == rest
    ensures DecodeOne("%4") == ('%', 1)
  {
    assert FromHex('4') == 4 && FromHex('1') == 1;
  }

  // ---------- The decoding loop ----------

  method UrlDecodeInto(destination: array<char>, source: string)
    modifies destination
    ensures destination.Length > 0 ==> HoldsString(destination[..], Decode(source, destination.Length - 1))
  {
    hide DecodeOne, Decode;
    if destination.Length == 0 {
      return;
    }
    ghost var whole := Decode(source, destination.Length - 1);
    var outIndex := 0;
    var i := 0;
    while i < |source| && outIndex + 1 < destination.Length
      invariant 0 <= i <= |source| && 0 <= outIndex < destination.Length
      invariant whole == destination[..outIndex] + Decode(source[i..], destination.Length - 1 - outIndex)
    {
      ghost var done := destination[..outIndex];
      DecodeStep(source, i, destination.Length - 1 - outIndex);
      var (c, n) := DecodeOne(source[i..]);
      destination[outIndex] := c;
      assert destination[..outIndex + 1] == done + [c];
      outIndex := outIndex + 1;
      i := i + n;
    }
    DecodeStops(source[i..], destination.Length - 1 - outIndex);
    assert whole == destination[..outIndex];
    destination[outIndex] := NUL;
  }

  lemma DecodeStep(s: string, i: nat, room: nat)
    requires i < |s| && room > 0
    ensures var (c, n) := DecodeOne(s[i..]);
            i + n <= |s| && Decode(s[i..], room) == [c] + Decode(s[i + n..], room - 1)
  {
    hide DecodeOne;
    assert s[i..][DecodeOne(s[i..]).1..] == s[i + DecodeOne(s[i..]).1..];
  }

  lemma DecodeStops(s: string, room: nat)
    requires s == "" || room == 0
    ensures Decode(s, room) == ""
  {
  }

  /** What a C reader sees of a buffer: a decoded zero byte ends the text early. */
  function UpToNul(s: string): string { if s == "" || s[0] == NUL then "" else [s[0]] + UpToNul(s[1..]) }

  // ---------- Form fields ----------

  const MAX_FIELD_LENGTH: nat := 128

  function UpToAmpersand(s: string): string { if s == "" || s[0] == '&' then "" else [s[0]] + UpToAmpersand(s[1..]) }

  /** The field as the decoy reads it: first occurrence of `name=`, up to an ampersand, cut to
      383 bytes, then decoded into the field's buffer. */
  function ExtractFormField(body: string, name: string): (value: string)
    ensures |value| < MAX_FIELD_LENGTH
  {
    match Find(body, name + "=")
    case None => ""
    case Some(at) =>
      var field := UpToAmpersand(body[at + |name| + 1..]);
      var decoded := Decode(Clip(field, 3 * MAX_FIELD_LENGTH), MAX_FIELD_LENGTH - 1);
      UpToNulShorter(decoded);
      UpToNul(decoded)
  }

  lemma UpToNulShorter(s: string)
    ensures |UpToNul(s)| <= |s|
    ensures NulFree(s) ==> UpToNul(s) == s
  {
  }

  /** The text up to the first zero byte, or all of it. */
  lemma {:induction false} UpToNulExactly(s: string)
    ensures var t := UpToNul(s);
            NulFree(t) && |t| <= |s| && t == s[..|t|] && (|t| < |s| ==> s[|t|] == NUL)
  {
    if s != "" && s[0] != NUL {
      UpToNulExactly(s[1..]);
    }
  }

  /** The cut to 383 bytes is invisible: the field is the full decoding's first 127 bytes. */
  lemma FieldIsFullDecoding(field: string)
    ensures Decode(Clip(field, 3 * MAX_FIELD_LENGTH), MAX_FIELD_LENGTH - 1)
         == if |DecodeAll(field)| < 128 then DecodeAll(field) else DecodeAll(field)[..127]
  {
    if |field| >= 3 * MAX_FIELD_LENGTH {
      PreTruncationInvisible(field, MAX_FIELD_LENGTH - 1, 3 * MAX_FIELD_LENGTH - 1);
    }
    DecodeKeepsFirst(field, MAX_FIELD_LENGTH - 1);
  }

  // ---------- Encoding ----------

  predicate Unreserved(c: char) {
    'a' <= c <= 'z' || 'A' <= c <= 'Z' || '0' <= c <= '9' || c in {'-', '.', '_', '~'}
  }

  /** How one byte is spelled: escaped though it need not be, and each hexadecimal digit in
      upper or lower case. */
  datatype Style = Style(escape: bool, upperHigh: bool, upperLow: bool)

  function HexDigitAs(d: nat, upper: bool): char
    requires d < 16
  {
    if d < 10 then '0' + d as char else if upper then 'A' + (d - 10) as char else 'a' + (d - 10) as char
  }

  function Escaped(c: char, style: Style): (s: string)
    requires c as nat < 256
    ensures |s| == 3
  {
    ['%', HexDigitAs(c as nat / 16, style.upperHigh), HexDigitAs(c as nat % 16, style.upperLow)]
  }

  function EncodeByte(c: char, style: Style): (s: string)
    requires c as nat < 256
    ensures 1 <= |s| <= 3
  {
    if style.escape then Escaped(c, style)
    else if Unreserved(c) then [c]
    else if c == ' ' then "+"
    else Escaped(c, style)
  }

  ghost predicate NonZeroBytes(s: string) { forall i :: 0 <= i < |s| ==> 0 < s[i] as nat < 256 }

  /** The form encoding of a text, every byte spelled in its own style. */
  function Encode(s: string, styles: seq<Style>): string
    requires NonZeroBytes(s) && |styles| == |s|
  {
    if s == "" then "" else EncodeByte(s[0], styles[0]) + Encode(s[1..], styles[1..])
  }

  /** Every byte is recovered from its escape, each digit in either case, whatever follows. */
  lemma EscapeDecodes(c: char, style: Style, rest: string)
    requires c as nat < 256
    ensures DecodeOne(Escaped(c, style) + rest) == (c, 3)
  {
    var h, l := c as nat / 16, c as nat % 16;
    assert forall d: nat, upper :: d < 16 ==> IsHex(HexDigitAs(d, upper)) && FromHex(HexDigitAs(d, upper)) == d;
    assert (h * 16 + l) as char == c;
  }

  /** Only a percent sign with two hexadecimal digits behind it is an escape; a plus sign is a
      space; anything else stands for itself. */
  lemma OthersDecodePlainly(s: string)
    requires s != ""
    requires !(s[0] == '%' && |s| >= 3 && s[1] in "0123456789abcdefABCDEF" && s[2] in "0123456789abcdefABCDEF")
    ensures DecodeOne(s) == (if s[0] == '+' then ' ' else s[0], 1)
  {
    if |s| >= 3 {
      HexDigits(s[1]);
      HexDigits(s[2]);
    }
  }

  lemma HexDigits(c: char)
    ensures IsHex(c) <==> c in "0123456789abcdefABCDEF"
  {
    var all := "0123456789abcdefABCDEF";
    if '0' <= c <= '9' {
      assert all[c as int - '0' as int] == c;
    } else if 'a' <= c <= 'f' {
      assert all[10 + c as int - 'a' as int] == c;
    } else if 'A' <= c <= 'F' {
      assert all[16 + c as int - 'A' as int] == c;
    }
  }

  lemma DecodeEncodedByte(c: char, style: Style, rest: string)
    requires c as nat < 256
    ensures DecodeOne(EncodeByte(c, style) + rest) == (c, |EncodeByte(c, style)|)
  {
    hide Escaped;
    EscapeDecodes(c, style, rest);
  }

  /** Decoding undoes encoding, however each byte is spelled. */
  lemma {:induction false} DecodeEncoded(s: string, styles: seq<Style>, room: nat)
    requires NonZeroBytes(s) && |styles| == |s| <= room
    ensures Decode(Encode(s, styles), room) == s
    decreases |s|
  {
    hide EncodeByte, DecodeOne;
    if s != "" {
      var first, rest := EncodeByte(s[0], styles[0]), Encode(s[1..], styles[1..]);
      DecodeEncodedByte(s[0], styles[0], rest);
      assert Encode(s, styles)[|first|..] == rest;
      DecodeEncoded(s[1..], styles[1..], room - 1);
      assert s == [s[0]] + s[1..];
    }
  }

  /** An encoded value never contains a character with a meaning in the body or the head. */
  ghost predicate Inert(s: string) { forall i :: 0 <= i < |s| ==> s[i] !in {'&', '=', '\r', '\n', ' ', NUL} }

  lemma EncodedByteInert(c: char, style: Style)
    requires 0 < c as nat < 256
    ensures Inert(EncodeByte(c, style))
  {
  }

  lemma {:induction false} EncodedInert(s: string, styles: seq<Style>)
    requires NonZeroBytes(s) && |styles| == |s|
    ensures Inert(Encode(s, styles)) && |Encode(s, styles)| <= 3 * |s|
  {
    hide EncodeByte;
    if s != "" {
      EncodedByteInert(s[0], styles[0]);
      EncodedInert(s[1..], styles[1..]);
    }
  }

  /** A form body with two encoded values. */
  function FormBody(username: string, password: string): string { "username=" + username + "&password=" + password }

  lemma {:induction false} UpToAmpersandStops(s: string, rest: string)
    requires '&' !in s && (rest == "" || rest[0] == '&')
    ensures UpToAmpersand(s + rest) == s
  {
    if s == "" {
      assert s + rest == rest;
    } else {
      assert (s + rest)[1..] == s[1..] + rest;
      UpToAmpersandStops(s[1..], rest);
      assert s == [s[0]] + s[1..];
    }
  }

  lemma UsernameField(u: string, p: string)
    requires Inert(u) && Inert(p)
    ensures var body := "username=" + u + "&password=" + p;
            && Find(body, "username=") == Some(0)
            && UpToAmpersand(body[9..]) == u
  {
    hide Find;
    var body := "username=" + u + "&password=" + p;
    assert body[0..9] == "username=";
    FindUnique(body, "username=", 0);
    assert body[9..] == u + ("&password=" + p);
    assert '&' !in u;
    UpToAmpersandStops(u, "&password=" + p);
  }

  /** The first `password=` is the real one: its equals sign has no other place to be. */
  lemma PasswordField(u: string, p: string)
    requires Inert(u) && Inert(p)
    ensures var body, k := "username=" + u + "&password=" + p, 10 + |u|;
            && Find(body, "password=") == Some(k)
            && UpToAmpersand(body[k + 9..]) == p
  {
    hide Find;
    var body, k := "username=" + u + "&password=" + p, 10 + |u|;
    assert body[k..k + 9] == "password=" && body[k + 9..] == p + "";
    forall i | 0 <= i < k
      ensures !At(body, "password=", i)
    {
      NoEarlierPassword(u, p, i);
    }
    FindUnique(body, "password=", k);
    assert '&' !in p;
    UpToAmpersandStops(p, "");
  }

  lemma NoEarlierPassword(u: string, p: string, i: nat)
    requires Inert(u) && i < 10 + |u|
    ensures !At("username=" + u + "&password=" + p, "password=", i)
  {
    var body := "username=" + u + "&password=" + p;
    if i == 0 {
      assert body[0..9][0] == 'u';
    } else {
      OtherSigns(u, p, i + 8);
      if i + 9 <= |body| {
        assert body[i..i + 9][8] == body[i + 8];
      }
    }
  }

  lemma OtherSigns(u: string, p: string, i: nat)
    requires Inert(u) && i < 18 + |u| && i != 8
    ensures ("username=" + u + "&password=" + p)[i] != '='
  {
    var body := "username=" + u + "&password=" + p;
    if i < 9 {
      assert body[i] == "username="[i];
    } else if i < 9 + |u| {
      assert body[i] == u[i - 9];
    } else {
      assert body[i] == "&password="[i - 9 - |u|];
    }
  }

  /** What a field of a form holds: the first 127 decoded bytes of the value, up to a zero byte. */
  function FieldOf(value: string): string {
    UpToNul(if |DecodeAll(value)| < MAX_FIELD_LENGTH then DecodeAll(value) else DecodeAll(value)[..MAX_FIELD_LENGTH - 1])
  }

  /** In any body a field is read behind the first place where its name and an equals sign stand,
      up to the next ampersand. */
  lemma FieldReadWhereNamed(before: string, name: string, value: string, rest: string)
    requires '&' !in value && (rest == "" || rest[0] == '&')
    requires forall i :: 0 <= i < |before| ==> !At(before + (name + "=") + value + rest, name + "=", i)
    ensures ExtractFormField(before + (name + "=") + value + rest, name) == FieldOf(value)
  {
    hide Find, Decode, UpToAmpersand, UpToNul, At;
    var key, body := name + "=", before + (name + "=") + value + rest;
    KeyThere(before, key, value + rest);
    assert body == before + key + (value + rest);
    FindUnique(body, key, |before|);
    assert body[|before| + |name| + 1..] == value + rest;
    UpToAmpersandStops(value, rest);
    FieldIsFullDecoding(value);
  }

  lemma KeyThere(before: string, key: string, rest: string)
    ensures At(before + key + rest, key, |before|)
  {
    assert (before + key + rest)[|before|..|before| + |key|] == key;
  }

  /** A body that names the field nowhere gives an empty one. */
  lemma FieldAbsent(body: string, name: string)
    requires forall i: nat :: !At(body, name + "=", i)
    ensures ExtractFormField(body, name) == ""
  {
    hide At;
  }

  /** Each field is read from its own value, whatever the values are. */
  lemma FormReads(u: string, p: string)
    requires Inert(u) && Inert(p)
    ensures ExtractFormField(FormBody(u, p), "username") == FieldOf(u)
    ensures ExtractFormField(FormBody(u, p), "password") == FieldOf(p)
  {
    hide Decode, UpToAmpersand, UpToNul, Find, Inert;
    assert "username" + "=" == "username=" && "password" + "=" == "password=";
    UsernameField(u, p);
    PasswordField(u, p);
    FieldIsFullDecoding(u);
    FieldIsFullDecoding(p);
  }

  lemma EncodedField(s: string, styles: seq<Style>)
    requires NonZeroBytes(s) && |styles| == |s| < MAX_FIELD_LENGTH
    ensures FieldOf(Encode(s, styles)) == s
  {
    hide Decode, Encode;
    var value := Encode(s, styles);
    DecodeEncoded(s, styles, MAX_FIELD_LENGTH - 1);
    DecodeKeepsFirst(value, MAX_FIELD_LENGTH - 1);
    DecodeEncoded(s, styles, if |value| > |s| then |value| else |s|);
    DecodeExhausts(value, if |value| > |s| then |value| else |s|);
    UpToNulShorter(s);
  }

  /** Both fields come back from a printed body, for texts of up to 127 bytes, however each byte
      is spelled. */
  lemma FormRoundTrip(username: string, password: string, us: seq<Style>, ps: seq<Style>)
    requires NonZeroBytes(username) && NonZeroBytes(password)
    requires |us| == |username| < MAX_FIELD_LENGTH && |ps| == |password| < MAX_FIELD_LENGTH
    ensures ExtractFormField(FormBody(Encode(username, us), Encode(password, ps)), "username") == username
    ensures ExtractFormField(FormBody(Encode(username, us), Encode(password, ps)), "password") == password
  {
    hide Encode, FieldOf, Inert, ExtractFormField;
    EncodedInert(username, us);
    EncodedInert(password, ps);
    FormReads(Encode(username, us), Encode(password, ps));
    EncodedField(username, us);
    EncodedField(password, ps);
  }
}
