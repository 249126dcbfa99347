/** Escaping for the interior of a JSON string, middlewares/preset.go, against a
    reader of section 7 of RFC 8259. */
module JsonEscape {
  import opened Prelude

  const QUOTE: byte := 0x22
  const BACKSLASH: byte := 0x5C

  function HexDigit(n: int): byte
    requires 0 <= n < 16
  {
    if n < 10 then (0x30 + n) as byte else (0x57 + n) as byte
  }

  /** One byte of the loop's switch. */
  function EscapeByte(c: byte): Bytes {
    if c == QUOTE then [BACKSLASH, QUOTE]
    else if c == BACKSLASH then [BACKSLASH, BACKSLASH]
    else if c == 0x08 then [BACKSLASH, 0x62]
    else if c == 0x0C then [BACKSLASH, 0x66]
    else if c == 0x0A then [BACKSLASH, 0x6E]
    else if c == 0x0D then [BACKSLASH, 0x72]
    else if c == 0x09 then [BACKSLASH, 0x74]
    else if c < 0x20 then [BACKSLASH, 0x75, 0x30, 0x30, HexDigit(c as int / 16), HexDigit(c as int % 16)]
    else [c]
  }

  function Escape(s: Bytes): Bytes {
    if s == [] then [] else EscapeByte(s[0]) + Escape(s[1..])
  }

  predicate NeedsEscape(c: byte) { c == QUOTE || c == BACKSLASH || c < 0x20 }

  method NeedsJsonEscape(s: Bytes) returns (needs: bool)
    ensures needs <==> exists i :: 0 <= i < |s| && NeedsEscape(s[i])
  {
    for i := 0 to |s|
      invariant forall k :: 0 <= k < i ==> !NeedsEscape(s[k])
    {
      var c := s[i];
      if c == QUOTE || c == BACKSLASH || c < 0x20 {
        return true;
      }
    }
    needs := false;
  }

  /** The fast path and the loop agree. */
  method JsonStringEscape(s: Bytes) returns (r: Bytes)
    ensures r == Escape(s)
  {
    var needs := NeedsJsonEscape(s);
    if !needs {
      NothingToEscape(s);
      return s;
    }
    r := [];
    for i := 0 to |s|
      invariant r + Escape(s[i..]) == Escape(s)
    {
      EscapeFrom(s, i);
      Associative(r, EscapeByte(s[i]), Escape(s[i + 1..]));
      r := r + EscapeByte(s[i]);
    }
  }

  lemma EscapeFrom(s: Bytes, i: nat)
    requires i < |s|
    ensures Escape(s[i..]) == EscapeByte(s[i]) + Escape(s[i + 1..])
  {
    assert s[i..][1..] == s[i + 1..];
  }

  lemma Associative(x: Bytes, y: Bytes, z: Bytes)
    ensures x + (y + z) == x + y + z
  {
  }

  lemma {:induction false} NothingToEscape(s: Bytes)
    requires forall i :: 0 <= i < |s| ==> !NeedsEscape(s[i])
    ensures Escape(s) == s
  {
    if s != [] {
      NothingToEscape(s[1..]);
      assert s == [s[0]] + s[1..];
    }
  }

  // ---- Reading a string, section 7 of RFC 8259 ----

  function HexValue(b: byte): (r: Option<int>)
    ensures r.Some? ==> 0 <= r.value < 16
  {
    if 0x30 <= b <= 0x39 then Some(b as int - 0x30)
    else if 0x61 <= b <= 0x66 then Some(b as int - 0x57)
    else if 0x41 <= b <= 0x46 then Some(b as int - 0x37)
    else None
  }

  /** The value of four hex digits. */
  function CodeUnit(t: Bytes): (r: Option<int>)
    ensures r.Some? ==> |t| >= 4 && 0 <= r.value < 0x10000
  {
    if |t| < 4 then None
    else
      var a, b, c, d := HexValue(t[0]), HexValue(t[1]), HexValue(t[2]), HexValue(t[3]);
      if a.None? || b.None? || c.None? || d.None? then None
      else Some(a.value * 4096 + b.value * 256 + c.value * 16 + d.value)
  }

  function Utf8(u: int): Bytes
    requires 0 <= u < 0x110000
  {
    if u < 0x80 then [u as byte]
    else if u < 0x800 then [(0xC0 + u / 64) as byte, (0x80 + u % 64) as byte]
    else if u < 0x10000 then [(0xE0 + u / 4096) as byte, (0x80 + u / 64 % 64) as byte, (0x80 + u % 64) as byte]
    else
      [(0xF0 + u / 262144) as byte, (0x80 + u / 4096 % 64) as byte,
       (0x80 + u / 64 % 64) as byte, (0x80 + u % 64) as byte]
  }

  /** The single-letter escapes. */
  function Letter(b: byte): Option<byte> {
    if b == QUOTE || b == BACKSLASH || b == 0x2F then Some(b)
    else if b == 0x62 then Some(0x08)
    else if b == 0x66 then Some(0x0C)
    else if b == 0x6E then Some(0x0A)
    else if b == 0x72 then Some(0x0D)
    else if b == 0x74 then Some(0x09)
    else None
  }

  datatype Char = Char(bytes: Bytes, rest: Bytes)

  /** One character of a string: unescaped, a letter escape, a unit, or a surrogate pair. */
  function ReadChar(t: Bytes): (r: Option<Char>)
    ensures r.Some? ==> |r.value.rest| < |t|
  {
    if t == [] || t[0] == QUOTE || t[0] < 0x20 then None
    else if t[0] != BACKSLASH then Some(Char([t[0]], t[1..]))
    else if |t| < 2 then None
    else if Letter(t[1]).Some? then Some(Char([Letter(t[1]).value], t[2..]))
    else if t[1] != 0x75 then None
    else
      var u := CodeUnit(t[2..]);
      if u.None? || 0xDC00 <= u.value < 0xE000 then None
      else if u.value < 0xD800 || 0xE000 <= u.value then Some(Char(Utf8(u.value), t[6..]))
      else if |t| < 12 || t[6] != BACKSLASH || t[7] != 0x75 then None
      else
        var v := CodeUnit(t[8..]);
        if v.None? || !(0xDC00 <= v.value < 0xE000) then None
        else Some(Char(Utf8(0x10000 + (u.value - 0xD800) * 1024 + (v.value - 0xDC00)), t[12..]))
  }

  /** The contents of a string whose opening quote has been read, and what follows the closing quote. */
  function ReadString(t: Bytes): Option<Char> {
    if t == [] then None
    else if t[0] == QUOTE then Some(Char([], t[1..]))
    else
      var c := ReadChar(t);
      if c.None? then None
      else
        var r := ReadString(c.value.rest);
        if r.None? then None else Some(Char(c.value.bytes + r.value.bytes, r.value.rest))
  }

  lemma HexRoundTrip(n: int)
    requires 0 <= n < 16
    ensures HexValue(HexDigit(n)) == Some(n)
  {
  }

  lemma ReadsEscapedByte(c: byte, rest: Bytes)
    ensures ReadChar(EscapeByte(c) + rest) == Some(Char([c], rest))
  {
    var e := EscapeByte(c);
    var t := e + rest;
    assert t[|e|..] == rest;
    if c < 0x20 && |e| == 6 {
      HexRoundTrip(c as int / 16);
      HexRoundTrip(c as int % 16);
      assert t[2..][..4] == [0x30, 0x30, e[4], e[5]];
      assert CodeUnit(t[2..]) == Some(c as int);
    }
  }

  lemma ReadsOneMore(c: byte, rest: Bytes)
    requires ReadString(rest).Some?
    ensures var r := ReadString(rest).value;
            ReadString(EscapeByte(c) + rest) == Some(Char([c] + r.bytes, r.rest))
  {
    ReadsEscapedByte(c, rest);
    assert (EscapeByte(c) + rest)[0] == EscapeByte(c)[0] != QUOTE;
  }

  /** A reader of the escaped text gets the original back and stops at the quote that was put after it,
      whatever follows: no byte string can end its own literal early. */
  lemma {:induction false} EscapeRoundTrip(s: Bytes, tail: Bytes)
    ensures ReadString(Escape(s) + [QUOTE] + tail) == Some(Char(s, tail))
  {
    if s == [] {
      assert Escape(s) + [QUOTE] + tail == [QUOTE] + tail;
    } else {
      var e, rest := EscapeByte(s[0]), Escape(s[1..]);
      EscapeRoundTrip(s[1..], tail);
      ReadsOneMore(s[0], rest + [QUOTE] + tail);
      Associative(e, rest, [QUOTE]);
      Associative(e, rest + [QUOTE], tail);
      assert s == [s[0]] + s[1..];
    }
  }

  /** How many backslashes stand right before a position. */
  function Backslashes(t: Bytes, i: nat): nat
    requires i <= |t|
  {
    if i == 0 || t[i - 1] != BACKSLASH then 0 else Backslashes(t, i - 1) + 1
  }

  /** The text begins with an escape of RFC 8259. */
  predicate BeginsEscape(t: Bytes) {
    |t| >= 2 && t[0] == BACKSLASH && (Letter(t[1]).Some? || (t[1] == 0x75 && CodeUnit(t[2..]).Some?))
  }

  /** An odd run of backslashes escapes what follows; an even one does not. */
  predicate Clean(c: byte, escaped: bool, text: Bytes) {
    c >= 0x20 && (c == QUOTE ==> escaped) && (c == BACKSLASH && !escaped ==> BeginsEscape(text))
  }
  predicate CleanAt(t: Bytes, i: nat)
    requires i < |t|
  {
    Clean(t[i], Backslashes(t, i) % 2 == 1, t[i..])
  }

  lemma {:induction false} BackslashesInFront(e: Bytes, rest: Bytes, i: nat)
    requires i <= |e|
    ensures Backslashes(e + rest, i) == Backslashes(e, i)
  {
    if i > 0 {
      BackslashesInFront(e, rest, i - 1);
    }
  }

  /** A run that reaches back to the seam goes on before it. */
  lemma {:induction false} BackslashesBehind(e: Bytes, rest: Bytes, i: nat)
    requires i <= |rest|
    ensures Backslashes(rest, i) <= i
    ensures Backslashes(e + rest, |e| + i)
         == Backslashes(rest, i) + if Backslashes(rest, i) == i then Backslashes(e, |e|) else 0
  {
    if i == 0 {
      BackslashesInFront(e, rest, |e|);
    } else {
      BackslashesBehind(e, rest, i - 1);
    }
  }

  /** What one byte becomes ends with no open backslash. */
  lemma EscapedByteIsClosed(c: byte)
    ensures Backslashes(EscapeByte(c), |EscapeByte(c)|) % 2 == 0
  {
    var e := EscapeByte(c);
    assert Backslashes(e, 0) == 0 && Backslashes(e, 1) == if c == QUOTE || c == BACKSLASH || c < 0x20 then 1 else 0;
  }

  /** It is clean in front of anything. */
  lemma EscapedByteIsClean(c: byte, rest: Bytes, i: nat)
    requires i < |EscapeByte(c)|
    ensures CleanAt(EscapeByte(c) + rest, i)
  {
    var e := EscapeByte(c);
    var t := e + rest;
    BackslashesInFront(e, rest, i);
    assert Backslashes(e, 0) == 0 && Backslashes(e, 1) == if c == QUOTE || c == BACKSLASH || c < 0x20 then 1 else 0;
    if |e| == 6 {
      HexRoundTrip(c as int / 16);
      HexRoundTrip(c as int % 16);
      assert t[0..] == t && t[2..][..4] == [0x30, 0x30, e[4], e[5]];
    } else if |e| == 2 {
      assert t[0..] == t;
    }
  }

  lemma Behind(e: Bytes, rest: Bytes, i: nat)
    requires i < |rest|
    ensures (e + rest)[|e| + i] == rest[i] && (e + rest)[|e| + i..] == rest[i..]
  {
  }

  lemma CleanBehind(e: Bytes, rest: Bytes, i: nat)
    requires Backslashes(e, |e|) % 2 == 0 && i < |rest| && CleanAt(rest, i)
    ensures CleanAt(e + rest, |e| + i)
  {
    BackslashesBehind(e, rest, i);
    Behind(e, rest, i);
  }

  /** The escaped text holds no control byte, no quote that is not escaped, and no backslash that
      neither begins an escape nor is escaped itself. */
  lemma {:induction false} EscapedIsClean(s: Bytes, i: nat)
    requires i < |Escape(s)|
    ensures CleanAt(Escape(s), i)
  {
    if s != [] {
      var c, rest := s[0], Escape(s[1..]);
      var e := EscapeByte(c);
      if i < |e| {
        EscapedByteIsClean(c, rest, i);
      } else {
        EscapedIsClean(s[1..], i - |e|);
        EscapedByteIsClosed(c);
        CleanBehind(e, rest, i - |e|);
      }
    }
  }

  /** No text that a reader takes for a byte is shorter than its escaped form, and where only the form with
      four digits will do they are in lower case. */
  lemma EscapeIsShortest(c: byte, t: Bytes)
    ensures ReadChar(t).Some? && ReadChar(t).value.bytes == [c] ==> |EscapeByte(c)| <= |t| - |ReadChar(t).value.rest|
    ensures |EscapeByte(c)| == 6 ==> forall b :: b in EscapeByte(c) ==> !(0x41 <= b <= 0x5A)
  {
    var r := ReadChar(t);
    if r.Some? && r.value.bytes == [c] {
      if t[0] != BACKSLASH {
        assert r.value.rest == t[1..];
      } else if Letter(t[1]).Some? {
        assert r.value.rest == t[2..];
      } else {
        assert |r.value.rest| <= |t| - 6;
      }
    }
  }

  /** Different strings escape differently. */
  lemma EscapeInjective(a: Bytes, b: Bytes)
    requires Escape(a) == Escape(b)
    ensures a == b
  {
    EscapeRoundTrip(a, []);
    EscapeRoundTrip(b, []);
  }

  lemma EscapeCons(c: byte, t: Bytes)
    ensures Escape([c] + t) == EscapeByte(c) + Escape(t)
  {
    assert ([c] + t)[1..] == t;
  }

  /** Text may be escaped in pieces. */
  lemma {:induction false} EscapeConcat(a: Bytes, b: Bytes)
    ensures Escape(a + b) == Escape(a) + Escape(b)
  {
    if a == [] {
      assert a + b == b;
    } else {
      var c, t := a[0], a[1..];
      assert a == [c] + t;
      calc {
        Escape(a + b);
        { Associative([c], t, b); }
        Escape([c] + (t + b));
        { EscapeCons(c, t + b); }
        EscapeByte(c) + Escape(t + b);
        { EscapeConcat(t, b); }
        EscapeByte(c) + (Escape(t) + Escape(b));
        { Associative(EscapeByte(c), Escape(t), Escape(b)); }
        EscapeByte(c) + Escape(t) + Escape(b);
        { EscapeCons(c, t); }
        Escape(a) + Escape(b);
      }
    }
  }
}
