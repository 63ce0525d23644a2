/** The canonical event serialization of NIP-01, section "Events and signatures", at byte level. */
module Nostr {
  import opened Options

  type Byte = b: int | 0 <= b < 256

  /** A text as the program holds it: any bytes, read as UTF-8. */
  type Text = seq<Byte>

  datatype Event = Event(pubkey: Text, createdAt: int, kind: int, tags: seq<seq<Text>>, content: Text)

  const QUOTE: Byte := 34
  const BACKSLASH: Byte := 92
  const COMMA: Byte := 44
  const MINUS: Byte := 45
  const ZERO: Byte := 48
  const OPEN: Byte := 91
  const CLOSE: Byte := 93
  const REPLACEMENT: int := 0xFFFD

  /* ---- UTF-8 ---- */

  /** A Unicode scalar value. */
  type Rune = r: int | 0 <= r < 0xD800 || 0xE000 <= r <= 0x10FFFF

  function EncodeRune(r: Rune): (s: Text)
    ensures 1 <= |s| <= 4
    ensures r < 0x80 ==> s == [r]
    ensures r >= 0x80 ==> s[0] >= 0xC2
  {
    var n := r as int;
    if n < 0x80 then [n]
    else if n < 0x800 then [0xC0 + n / 64, 0x80 + n % 64]
    else if n < 0x10000 then [0xE0 + n / 4096, 0x80 + n / 64 % 64, 0x80 + n % 64]
    else [0xF0 + n / 262144, 0x80 + n / 4096 % 64, 0x80 + n / 64 % 64, 0x80 + n % 64]
  }

  predicate Trail(b: Byte) { 0x80 <= b < 0xC0 }

  function Low(b: Byte): int { b as int - 0x80 }

  /** Which second bytes the first byte accepts: no overlong forms, no surrogates, nothing above U+10FFFF. */
  predicate Second(first: Byte, b: Byte)
  {
    && Trail(b)
    && (first == 0xE0 ==> b >= 0xA0)
    && (first == 0xED ==> b < 0xA0)
    && (first == 0xF0 ==> b >= 0x90)
    && (first == 0xF4 ==> b < 0x90)
  }

  /** One step of ranging over a text: a rune and its width; a byte that starts no valid sequence
      reads as U+FFFD. */
  function DecodeRune(s: Text): (r: (Rune, nat))
    requires s != []
    ensures 1 <= r.1 <= |s|
  {
    var b := s[0];
    if b < 0x80 then (b, 1)
    else if 0xC2 <= b < 0xE0 && |s| >= 2 && Trail(s[1]) then ((b as int - 0xC0) * 64 + Low(s[1]), 2)
    else if 0xE0 <= b < 0xF0 && |s| >= 3 && Second(b, s[1]) && Trail(s[2]) then
      ((b as int - 0xE0) * 4096 + Low(s[1]) * 64 + Low(s[2]), 3)
    else if 0xF0 <= b < 0xF5 && |s| >= 4 && Second(b, s[1]) && Trail(s[2]) && Trail(s[3]) then
      ((b as int - 0xF0) * 262144 + Low(s[1]) * 4096 + Low(s[2]) * 64 + Low(s[3]), 4)
    else (REPLACEMENT, 1)
  }

  function Runes(s: Text): seq<Rune>
  {
    if s == [] then [] else [DecodeRune(s).0] + Runes(s[DecodeRune(s).1..])
  }

  function Utf8(rs: seq<Rune>): Text
  {
    if rs == [] then [] else EncodeRune(rs[0]) + Utf8(rs[1..])
  }

  /** Every byte belongs to a well-formed sequence. */
  predicate ValidUtf8(s: Text)
  {
    s == [] || (var (r, w) := DecodeRune(s); EncodeRune(r) == s[..w] && ValidUtf8(s[w..]))
  }

  /** A text with every stray byte replaced by U+FFFD. */
  function Sanitized(s: Text): Text { Utf8(Runes(s)) }

  lemma Digits64(n: nat)
    ensures n == n / 64 * 64 + n % 64
    ensures n == n / 4096 * 4096 + n / 64 % 64 * 64 + n % 64
    ensures n == n / 262144 * 262144 + n / 4096 % 64 * 4096 + n / 64 % 64 * 64 + n % 64
  {
    assert n / 64 / 64 == n / 4096 && n / 4096 / 64 == n / 262144;
  }

  lemma DecodeTwo(r: Rune, s: Text)
    requires 0x80 <= r < 0x800 && EncodeRune(r) <= s
    ensures DecodeRune(s) == (r, 2)
  {
    Digits64(r as int);
    assert s[0] == EncodeRune(r)[0] && s[1] == EncodeRune(r)[1];
  }

  lemma DecodeThree(r: Rune, s: Text)
    requires 0x800 <= r < 0x10000 && EncodeRune(r) <= s
    ensures DecodeRune(s) == (r, 3)
  {
    Digits64(r as int);
    assert s[0] == EncodeRune(r)[0] && s[1] == EncodeRune(r)[1] && s[2] == EncodeRune(r)[2];
  }

  lemma DecodeFour(r: Rune, s: Text)
    requires 0x10000 <= r && EncodeRune(r) <= s
    ensures DecodeRune(s) == (r, 4)
  {
    Digits64(r as int);
    assert s[0] == EncodeRune(r)[0] && s[1] == EncodeRune(r)[1] && s[2] == EncodeRune(r)[2] && s[3] == EncodeRune(r)[3];
  }

  /** Reading back an encoded rune, whatever follows. */
  lemma DecodeEncoded(r: Rune, rest: Text)
    ensures DecodeRune(EncodeRune(r) + rest) == (r, |EncodeRune(r)|)
  {
    var s := EncodeRune(r) + rest;
    if 0x80 <= r < 0x800 {
      DecodeTwo(r, s);
    } else if 0x800 <= r < 0x10000 {
      DecodeThree(r, s);
    } else if 0x10000 <= r {
      DecodeFour(r, s);
    }
  }

  lemma {:induction false} RunesOfUtf8(rs: seq<Rune>)
    ensures Runes(Utf8(rs)) == rs
    ensures ValidUtf8(Utf8(rs))
  {
    if rs != [] {
      DecodeEncoded(rs[0], Utf8(rs[1..]));
      RunesOfUtf8(rs[1..]);
      var s := Utf8(rs);
      assert s[|EncodeRune(rs[0])|..] == Utf8(rs[1..]) && s[..|EncodeRune(rs[0])|] == EncodeRune(rs[0]);
    }
  }

  /** Sanitizing changes nothing exactly in well-formed text. */
  lemma {:induction false} SanitizedIff(s: Text)
    ensures Sanitized(s) == s <==> ValidUtf8(s)
  {
    RunesOfUtf8(Runes(s));
    if ValidUtf8(s) { ValidStays(s); }
  }

  lemma SanitizedStep(s: Text)
    requires s != []
    ensures Sanitized(s) == EncodeRune(DecodeRune(s).0) + Sanitized(s[DecodeRune(s).1..])
  {
    assert Runes(s)[1..] == Runes(s[DecodeRune(s).1..]);
  }

  lemma {:induction false} ValidStays(s: Text)
    requires ValidUtf8(s)
    ensures Sanitized(s) == s
  {
    if s != [] {
      var (r, w) := DecodeRune(s);
      SanitizedStep(s);
      ValidStays(s[w..]);
      assert s == s[..w] + s[w..];
    }
  }

  /* ---- strings ---- */

  function HexDigit(n: nat): Byte
    requires n < 16
  {
    if n < 10 then ZERO + n else 97 + (n - 10)
  }

  function HexValue(b: Byte): Option<nat>
  {
    if 48 <= b < 58 then Some(b - 48) else if 97 <= b < 103 then Some(b - 97 + 10) else None
  }

  function Escape(r: Rune): Text
  {
    if r == 34 || r == 92 then [BACKSLASH, r]
    else if r == 10 then [BACKSLASH, 110]
    else if r == 13 then [BACKSLASH, 114]
    else if r == 9 then [BACKSLASH, 116]
    else if r == 8 then [BACKSLASH, 98]
    else if r == 12 then [BACKSLASH, 102]
    else if r < 0x20 then [BACKSLASH, 117, ZERO, ZERO, HexDigit(r as int / 16), HexDigit(r as int % 16)]
    else EncodeRune(r)
  }

  function EscapeAll(rs: seq<Rune>): Text
  {
    if rs == [] then [] else Escape(rs[0]) + EscapeAll(rs[1..])
  }

  function JsonString(s: Text): Text
  {
    [QUOTE] + EscapeAll(Runes(s)) + [QUOTE]
  }

  /** One character of a string body: its rune and width. */
  function ReadChar(s: Text): Option<(Rune, nat)>
    requires s != []
  {
    if s[0] != BACKSLASH then Some(DecodeRune(s))
    else if |s| < 2 then None
    else if s[1] == QUOTE || s[1] == BACKSLASH then Some((s[1], 2))
    else if s[1] == 110 then Some((10, 2))
    else if s[1] == 114 then Some((13, 2))
    else if s[1] == 116 then Some((9, 2))
    else if s[1] == 98 then Some((8, 2))
    else if s[1] == 102 then Some((12, 2))
    else if s[1] == 117 && |s| >= 6 && s[2] == ZERO && s[3] == ZERO && HexValue(s[4]).Some? && HexValue(s[5]).Some? then
      Some((HexValue(s[4]).value * 16 + HexValue(s[5]).value, 6))
    else None
  }

  /** The runes up to the closing quote, and what follows it. */
  function ReadBody(s: Text): (r: Option<(seq<Rune>, Text)>)
    ensures r.Some? ==> |r.value.1| < |s|
    decreases |s|
  {
    if s == [] then None
    else if s[0] == QUOTE then Some(([], s[1..]))
    else
      var c := ReadChar(s);
      if c.None? then None
      else
        var more := ReadBody(s[c.value.1..]);
        if more.None? then None else Some(([c.value.0] + more.value.0, more.value.1))
  }

  function ReadString(s: Text): (r: Option<(Text, Text)>)
    ensures r.Some? ==> |r.value.1| < |s|
  {
    if s == [] || s[0] != QUOTE then None
    else
      var body := ReadBody(s[1..]);
      if body.None? then None else Some((Utf8(body.value.0), body.value.1))
  }

  lemma ReadControl(r: Rune, rest: Text)
    requires r < 0x20
    ensures Escape(r)[0] == BACKSLASH && ReadChar(Escape(r) + rest) == Some((r, |Escape(r)|))
  {
    var e, s := Escape(r), Escape(r) + rest;
    assert s[0] == e[0] && s[1] == e[1];
    assert |e| == 6 ==> s[2] == e[2] && s[3] == e[3] && s[4] == e[4] && s[5] == e[5];
  }

  lemma ReadEscaped(r: Rune, rest: Text)
    ensures Escape(r) != [] && Escape(r)[0] != QUOTE
    ensures ReadChar(Escape(r) + rest) == Some((r, |Escape(r)|))
  {
    if r < 0x20 {
      ReadControl(r, rest);
    } else {
      DecodeEncoded(r, rest);
    }
  }

  lemma FirstEscaped(head: Text, body: Text, rest: Text)
    ensures
      var tail := body + [QUOTE] + rest;
      head + body + [QUOTE] + rest == head + tail && (head + tail)[|head|..] == tail
  {
  }

  lemma {:induction false} ReadEscapedAll(rs: seq<Rune>, rest: Text)
    ensures ReadBody(EscapeAll(rs) + [QUOTE] + rest) == Some((rs, rest))
  {
    var s := EscapeAll(rs) + [QUOTE] + rest;
    if rs == [] {
      assert s[1..] == rest;
    } else {
      var head, tail := Escape(rs[0]), EscapeAll(rs[1..]) + [QUOTE] + rest;
      FirstEscaped(head, EscapeAll(rs[1..]), rest);
      ReadEscaped(rs[0], tail);
      ReadEscapedAll(rs[1..], rest);
      assert rs == [rs[0]] + rs[1..];
    }
  }

  lemma Unquoted(body: Text, rest: Text)
    ensures
      var s := [QUOTE] + body + [QUOTE] + rest;
      s[0] == QUOTE && s[1..] == body + [QUOTE] + rest
  {
  }

  /** An encoded string delimits itself: whatever follows, reading gives back the text and the rest. */
  lemma StringRoundTrip(v: Text, rest: Text)
    ensures ReadString(JsonString(v) + rest) == Some((Sanitized(v), rest))
  {
    ReadEscapedAll(Runes(v), rest);
    Unquoted(EscapeAll(Runes(v)), rest);
  }

  /* ---- integers ---- */

  function Digits(n: nat): (s: Text)
    ensures s != [] && forall i :: 0 <= i < |s| ==> Digit(s[i])
  {
    if n < 10 then [ZERO + n] else Digits(n / 10) + [ZERO + n % 10]
  }

  function Decimal(n: int): Text
  {
    if n < 0 then [MINUS] + Digits(-n) else Digits(n)
  }

  predicate Digit(b: Byte) { 48 <= b < 58 }

  /** The value of leading digits after those already read. */
  function ReadDigits(s: Text, sofar: nat): (nat, Text)
  {
    if s == [] || !Digit(s[0]) then (sofar, s) else ReadDigits(s[1..], sofar * 10 + (s[0] - ZERO))
  }

  function ReadInt(s: Text): (r: (int, Text))
  {
    if s != [] && s[0] == MINUS then
      var (n, rest) := ReadDigits(s[1..], 0);
      (-(n as int), rest)
    else ReadDigits(s, 0)
  }

  lemma {:induction false} ReadDigitsOf(n: nat, rest: Text)
    ensures ReadDigits(Digits(n) + rest, 0) == ReadDigits(rest, n)
  {
    if n < 10 {
      assert (Digits(n) + rest)[1..] == rest;
    } else {
      var last := [ZERO + n % 10] + rest;
      assert Digits(n) + rest == Digits(n / 10) + last;
      ReadDigitsOf(n / 10, last);
      assert last[1..] == rest;
    }
  }

  lemma NatRoundTrip(n: nat, rest: Text)
    requires rest != [] && !Digit(rest[0])
    ensures ReadDigits(Digits(n) + rest, 0) == (n, rest) && Digit((Digits(n) + rest)[0])
  {
    ReadDigitsOf(n, rest);
    assert Digit(Digits(n)[0]);
  }

  lemma IntRoundTrip(n: int, rest: Text)
    requires rest != [] && !Digit(rest[0])
    ensures ReadInt(Decimal(n) + rest) == (n, rest)
  {
    if n < 0 {
      var digits := Digits(-n);
      NatRoundTrip(-n, rest);
      assert [MINUS] + digits + rest == [MINUS] + (digits + rest);
      assert ([MINUS] + (digits + rest))[1..] == digits + rest;
    } else {
      NatRoundTrip(n, rest);
    }
  }

  /* ---- lists ---- */

  function Separator(first: bool): Text { if first then [] else [COMMA] }

  /** The strings of a tag still to be written. */
  function Strings(values: seq<Text>, first: bool): Text
  {
    if values == [] then [] else Separator(first) + JsonString(values[0]) + Strings(values[1..], false)
  }

  function Tag(values: seq<Text>): Text
  {
    [OPEN] + Strings(values, true) + [CLOSE]
  }

  /** The tags still to be written. */
  function TagList(tags: seq<seq<Text>>, first: bool): Text
  {
    if tags == [] then [] else Separator(first) + Tag(tags[0]) + TagList(tags[1..], false)
  }

  function Preimage(e: Event): Text
  {
    [OPEN, ZERO, COMMA] + JsonString(e.pubkey) + [COMMA] + Decimal(e.createdAt) + [COMMA] + Decimal(e.kind) + [COMMA,
      OPEN]
    + TagList(e.tags, true) + [CLOSE, COMMA] + JsonString(e.content) + [CLOSE]
  }

  function Skip(s: Text, b: Byte): Option<Text>
  {
    if s != [] && s[0] == b then Some(s[1..]) else None
  }

  /** Past the separator that must stand before an item. */
  function NextItem(s: Text, first: bool): (r: Option<Text>)
    ensures r.Some? ==> |r.value| <= |s|
  {
    if first then Some(s) else Skip(s, COMMA)
  }

  function ReadStrings(s: Text, first: bool): (r: Option<(seq<Text>, Text)>)
    ensures r.Some? ==> |r.value.1| < |s|
    decreases |s|
  {
    if s == [] then None
    else if s[0] == CLOSE then Some(([], s[1..]))
    else
      var at := NextItem(s, first);
      if at.None? then None
      else
        var item := ReadString(at.value);
        if item.None? then None
        else
          var more := ReadStrings(item.value.1, false);
          if more.None? then None else Some(([item.value.0] + more.value.0, more.value.1))
  }

  function ReadTag(s: Text): (r: Option<(seq<Text>, Text)>)
    ensures r.Some? ==> |r.value.1| < |s|
  {
    var open := Skip(s, OPEN);
    if open.None? then None else ReadStrings(open.value, true)
  }

  function ReadTags(s: Text, first: bool): (r: Option<(seq<seq<Text>>, Text)>)
    ensures r.Some? ==> |r.value.1| < |s|
    decreases |s|
  {
    if s == [] then None
    else if s[0] == CLOSE then Some(([], s[1..]))
    else
      var at := NextItem(s, first);
      if at.None? then None
      else
        var item := ReadTag(at.value);
        if item.None? then None
        else
          var more := ReadTags(item.value.1, false);
          if more.None? then None else Some(([item.value.0] + more.value.0, more.value.1))
  }

  function SanitizedTag(values: seq<Text>): (r: seq<Text>)
    ensures |r| == |values| && forall i :: 0 <= i < |r| ==> r[i] == Sanitized(values[i])
  {
    seq(|values|, i requires 0 <= i < |values| => Sanitized(values[i]))
  }

  function SanitizedTags(tags: seq<seq<Text>>): (r: seq<seq<Text>>)
    ensures |r| == |tags| && forall i :: 0 <= i < |r| ==> r[i] == SanitizedTag(tags[i])
  {
    seq(|tags|, i requires 0 <= i < |tags| => SanitizedTag(tags[i]))
  }

  lemma Regroup(a: Text, b: Text, c: Text)
    ensures a + (b + c) == (a + b) + c
  {
  }

  lemma RegroupItem(separator: Text, item: Text, items: Text, close: Text, rest: Text)
    ensures separator + item + items + close + rest == separator + (item + (items + close + rest))
  {
  }

  lemma RegroupTail(tags: Text, content: Text)
    ensures tags + [CLOSE, COMMA] + content + [CLOSE] == tags + [CLOSE] + ([COMMA] + (content + [CLOSE]))
  {
  }

  lemma Opened(items: Text, rest: Text)
    ensures [OPEN] + items + [CLOSE] + rest == [OPEN] + (items + [CLOSE] + rest)
    ensures ([OPEN] + (items + [CLOSE] + rest))[1..] == items + [CLOSE] + rest
  {
  }

  lemma Closed(rest: Text)
    ensures ([] + [CLOSE] + rest)[0] == CLOSE && ([] + [CLOSE] + rest)[1..] == rest
  {
  }

  lemma PastSeparator(first: bool, s: Text)
    ensures NextItem(Separator(first) + s, first) == Some(s)
  {
    assert [] + s == s && ([COMMA] + s)[1..] == s;
  }

  lemma SanitizedTagNext(values: seq<Text>)
    requires values != []
    ensures SanitizedTag(values) == [Sanitized(values[0])] + SanitizedTag(values[1..])
  {
  }

  lemma SanitizedTagsNext(tags: seq<seq<Text>>)
    requires tags != []
    ensures SanitizedTags(tags) == [SanitizedTag(tags[0])] + SanitizedTags(tags[1..])
  {
  }

  lemma StringsStep(first: bool, t: Text, item: Text, u: Text, more: seq<Text>, rest: Text)
    requires t != [] && t[0] == QUOTE && ReadString(t) == Some((item, u)) && ReadStrings(u, false) == Some((more, rest))
    ensures ReadStrings(Separator(first) + t, first) == Some(([item] + more, rest))
  {
    PastSeparator(first, t);
  }

  lemma {:induction false} StringsRoundTrip(values: seq<Text>, first: bool, rest: Text)
    ensures ReadStrings(Strings(values, first) + [CLOSE] + rest, first) == Some((SanitizedTag(values), rest))
  {
    if values == [] {
      Closed(rest);
    } else {
      var item, items := JsonString(values[0]), Strings(values[1..], false);
      var tail := items + [CLOSE] + rest;
      StringRoundTrip(values[0], tail);
      StringsRoundTrip(values[1..], false, rest);
      StringsStep(first, item + tail, Sanitized(values[0]), tail, SanitizedTag(values[1..]), rest);
      RegroupItem(Separator(first), item, items, [CLOSE], rest);
      SanitizedTagNext(values);
    }
  }

  lemma TagRoundTrip(values: seq<Text>, rest: Text)
    ensures ReadTag(Tag(values) + rest) == Some((SanitizedTag(values), rest))
  {
    StringsRoundTrip(values, true, rest);
    Opened(Strings(values, true), rest);
  }

  lemma TagsStep(first: bool, t: Text, item: seq<Text>, u: Text, more: seq<seq<Text>>, rest: Text)
    requires t != [] && t[0] == OPEN && ReadTag(t) == Some((item, u)) && ReadTags(u, false) == Some((more, rest))
    ensures ReadTags(Separator(first) + t, first) == Some(([item] + more, rest))
  {
    PastSeparator(first, t);
  }

  lemma {:induction false} TagListRoundTrip(tags: seq<seq<Text>>, first: bool, rest: Text)
    ensures ReadTags(TagList(tags, first) + [CLOSE] + rest, first) == Some((SanitizedTags(tags), rest))
  {
    if tags == [] {
      Closed(rest);
    } else {
      var item, items := Tag(tags[0]), TagList(tags[1..], false);
      var tail := items + [CLOSE] + rest;
      TagRoundTrip(tags[0], tail);
      TagListRoundTrip(tags[1..], false, rest);
      TagsStep(first, item + tail, SanitizedTag(tags[0]), tail, SanitizedTags(tags[1..]), rest);
      RegroupItem(Separator(first), item, items, [CLOSE], rest);
      SanitizedTagsNext(tags);
    }
  }

  /* ---- events ---- */

  function SkipAll(s: Text, prefix: Text): Option<Text>
  {
    if prefix <= s then Some(s[|prefix|..]) else None
  }

  /** The tags and the content, from inside the tag array to the end. */
  function ReadTail(s: Text): Option<(seq<seq<Text>>, Text)>
  {
    var tags := ReadTags(s, true);
    if tags.None? then None
    else
      var at := Skip(tags.value.1, COMMA);
      if at.None? then None
      else
        var content := ReadString(at.value);
        if content.None? || content.value.1 != [CLOSE] then None else Some((tags.value.0, content.value.0))
  }

  /** Both integers, and what follows the opened tag array. */
  function ReadNumbers(s: Text): Option<(int, int, Text)>
  {
    var (createdAt, rest) := ReadInt(s);
    var at := Skip(rest, COMMA);
    if at.None? then None
    else
      var (kind, rest') := ReadInt(at.value);
      var tags := SkipAll(rest', [COMMA, OPEN]);
      if tags.None? then None else Some((createdAt, kind, tags.value))
  }

  function ReadEvent(s: Text): Option<Event>
  {
    var at := SkipAll(s, [OPEN, ZERO, COMMA]);
    if at.None? then None
    else
      var pubkey := ReadString(at.value);
      if pubkey.None? then None
      else
        var numbers := Skip(pubkey.value.1, COMMA);
        if numbers.None? then None
        else
          var n := ReadNumbers(numbers.value);
          if n.None? then None
          else
            var tail := ReadTail(n.value.2);
            if tail.None? then None
            else Some(Event(pubkey.value.0, n.value.0, n.value.1, tail.value.0, tail.value.1))
  }

  function Tail(e: Event): Text
  {
    TagList(e.tags, true) + [CLOSE, COMMA] + JsonString(e.content) + [CLOSE]
  }

  function Numbers(e: Event, tail: Text): Text
  {
    Decimal(e.createdAt) + [COMMA] + Decimal(e.kind) + [COMMA, OPEN] + tail
  }

  lemma RegroupThree(a: Text, b: Text, c: Text, d: Text)
    ensures a + b + c + d == a + (b + (c + d))
  {
  }

  lemma RegroupFive(a: Text, b: Text, c: Text, d: Text, e: Text)
    ensures a + b + c + d + e == a + (b + c + d + e)
  {
  }

  lemma RegroupSix(a: Text, b: Text, c: Text, d: Text, e: Text, f: Text)
    ensures a + b + c + d + e + f == a + (b + c + d + e + f)
  {
    RegroupFive(a, b, c, d, e);
    Regroup(a, b + c + d + e, f);
  }

  lemma PreimageParts(e: Event)
    ensures Preimage(e) == [OPEN, ZERO, COMMA] + (JsonString(e.pubkey) + ([COMMA] + Numbers(e, Tail(e))))
  {
    var head, pubkey := [OPEN, ZERO, COMMA], JsonString(e.pubkey);
    var created, kind := Decimal(e.createdAt), Decimal(e.kind);
    var tags, content := TagList(e.tags, true), JsonString(e.content);
    var front := head + pubkey + [COMMA] + created + [COMMA] + kind + [COMMA, OPEN];
    RegroupFive(front, tags, [CLOSE, COMMA], content, [CLOSE]);
    RegroupSix(head + pubkey + [COMMA], created, [COMMA], kind, [COMMA, OPEN], Tail(e));
    RegroupThree(head, pubkey, [COMMA], Numbers(e, Tail(e)));
  }

  lemma TailParts(s: Text, tags: seq<seq<Text>>, rest: Text, content: Text)
    requires ReadTags(s, true) == Some((tags, [COMMA] + rest)) && ReadString(rest) == Some((content, [CLOSE]))
    ensures ReadTail(s) == Some((tags, content))
  {
    assert ([COMMA] + rest)[1..] == rest;
  }

  lemma TailRoundTrip(e: Event)
    ensures ReadTail(Tail(e)) == Some((SanitizedTags(e.tags), Sanitized(e.content)))
  {
    var rest := JsonString(e.content) + [CLOSE];
    StringRoundTrip(e.content, [CLOSE]);
    var s := TagList(e.tags, true) + [CLOSE] + ([COMMA] + rest);
    TagListRoundTrip(e.tags, true, [COMMA] + rest);
    TailParts(s, SanitizedTags(e.tags), rest, Sanitized(e.content));
    RegroupTail(TagList(e.tags, true), JsonString(e.content));
  }

  lemma NumbersRoundTrip(e: Event, tail: Text)
    ensures ReadNumbers(Numbers(e, tail)) == Some((e.createdAt, e.kind, tail))
  {
    var kind := Decimal(e.kind) + ([COMMA, OPEN] + tail);
    assert Numbers(e, tail) == Decimal(e.createdAt) + ([COMMA] + kind);
    IntRoundTrip(e.createdAt, [COMMA] + kind);
    assert ([COMMA] + kind)[1..] == kind;
    IntRoundTrip(e.kind, [COMMA, OPEN] + tail);
    assert ([COMMA, OPEN] + tail)[2..] == tail;
  }

  function SanitizedEvent(e: Event): Event
  {
    Event(Sanitized(e.pubkey), e.createdAt, e.kind, SanitizedTags(e.tags), Sanitized(e.content))
  }

  /** A decoder recovers every field from the bytes that are hashed. */
  lemma EventRoundTrip(e: Event)
    ensures ReadEvent(Preimage(e)) == Some(SanitizedEvent(e))
  {
    var numbers := Numbers(e, Tail(e));
    PreimageParts(e);
    var body := JsonString(e.pubkey) + ([COMMA] + numbers);
    assert ([OPEN, ZERO, COMMA] + body)[3..] == body;
    StringRoundTrip(e.pubkey, [COMMA] + numbers);
    assert ([COMMA] + numbers)[1..] == numbers;
    NumbersRoundTrip(e, Tail(e));
    TailRoundTrip(e);
  }

  /* ---- what the preimage depends on ---- */

  lemma SanitizedString(s: Text)
    ensures JsonString(Sanitized(s)) == JsonString(s)
  {
    RunesOfUtf8(Runes(s));
  }

  lemma {:induction false} SanitizedStrings(values: seq<Text>, first: bool)
    ensures Strings(SanitizedTag(values), first) == Strings(values, first)
  {
    if values != [] {
      SanitizedString(values[0]);
      assert SanitizedTag(values)[1..] == SanitizedTag(values[1..]);
      SanitizedStrings(values[1..], false);
    }
  }

  lemma {:induction false} SanitizedTagList(tags: seq<seq<Text>>, first: bool)
    ensures TagList(SanitizedTags(tags), first) == TagList(tags, first)
  {
    if tags != [] {
      SanitizedStrings(tags[0], true);
      assert SanitizedTags(tags)[1..] == SanitizedTags(tags[1..]);
      SanitizedTagList(tags[1..], false);
    }
  }

  lemma SanitizedPreimage(e: Event)
    ensures Preimage(SanitizedEvent(e)) == Preimage(e)
  {
    SanitizedString(e.pubkey);
    SanitizedString(e.content);
    SanitizedTagList(e.tags, true);
  }

  /** Two events are hashed from the same bytes exactly when they agree once stray bytes are
      replaced by U+FFFD. */
  lemma SamePreimageIff(a: Event, b: Event)
    ensures Preimage(a) == Preimage(b) <==> SanitizedEvent(a) == SanitizedEvent(b)
  {
    EventRoundTrip(a);
    EventRoundTrip(b);
    SanitizedPreimage(a);
    SanitizedPreimage(b);
  }

  predicate ValidTag(values: seq<Text>)
  {
    forall i :: 0 <= i < |values| ==> ValidUtf8(values[i])
  }

  predicate ValidEvent(e: Event)
  {
    ValidUtf8(e.pubkey) && ValidUtf8(e.content) && forall i :: 0 <= i < |e.tags| ==> ValidTag(e.tags[i])
  }

  lemma ValidTagStays(values: seq<Text>)
    requires ValidTag(values)
    ensures SanitizedTag(values) == values
  {
    forall i | 0 <= i < |values| ensures SanitizedTag(values)[i] == values[i] {
      ValidStays(values[i]);
    }
  }

  lemma ValidEventStays(e: Event)
    requires ValidEvent(e)
    ensures SanitizedEvent(e) == e
  {
    ValidStays(e.pubkey);
    ValidStays(e.content);
    forall i | 0 <= i < |e.tags| ensures SanitizedTags(e.tags)[i] == e.tags[i] {
      ValidTagStays(e.tags[i]);
    }
  }

  /** On valid UTF-8 the serialization is unambiguous: it decodes to the event itself, so no two
      events share a preimage. */
  lemma PreimageInjective(a: Event, b: Event)
    requires ValidEvent(a) && ValidEvent(b)
    ensures ReadEvent(Preimage(a)) == Some(a)
    ensures Preimage(a) == Preimage(b) ==> a == b
  {
    ValidEventStays(a);
    ValidEventStays(b);
    EventRoundTrip(a);
    EventRoundTrip(b);
  }

  /** Outside valid UTF-8 it is not: two different stray bytes are written alike. */
  lemma StrayBytesCollide()
    ensures [0xFE as Byte] != [0xFF as Byte] && JsonString([0xFE]) == JsonString([0xFF])
  {
    var a, b: Text := [0xFE], [0xFF];
    assert a[1..] == [] && b[1..] == [];
    assert Runes(a) == [REPLACEMENT] == Runes(b);
  }

  /* ---- the encoder as it is written ---- */

  lemma NextRune(s: Text)
    requires s != []
    ensures EscapeAll(Runes(s)) == Escape(DecodeRune(s).0) + EscapeAll(Runes(s[DecodeRune(s).1..]))
  {
    assert Runes(s)[1..] == Runes(s[DecodeRune(s).1..]);
  }

  method AppendEscaped(dst: Text, c: Rune) returns (out: Text)
    ensures out == dst + Escape(c)
  {
    if c == 34 || c == 92 {
      out := dst + [BACKSLASH, c];
    } else if c == 10 {
      out := dst + [BACKSLASH, 110];
    } else if c == 13 {
      out := dst + [BACKSLASH, 114];
    } else if c == 9 {
      out := dst + [BACKSLASH, 116];
    } else if c == 8 {
      out := dst + [BACKSLASH, 98];
    } else if c == 12 {
      out := dst + [BACKSLASH, 102];
    } else if c < 0x20 {
      out := dst + [BACKSLASH, 117, ZERO, ZERO, HexDigit(c as int / 16), HexDigit(c as int % 16)];
    } else {
      out := dst + EncodeRune(c);
    }
  }

  method AppendJsonString(dst: Text, value: Text) returns (out: Text)
    ensures out == dst + JsonString(value)
  {
    out := dst + [QUOTE];
    ghost var goal := out + EscapeAll(Runes(value));
    var rest := value;
    while rest != []
      invariant out + EscapeAll(Runes(rest)) == goal
      decreases |rest|
    {
      var (c, w) := DecodeRune(rest);
      NextRune(rest);
      Regroup(out, Escape(c), EscapeAll(Runes(rest[w..])));
      out := AppendEscaped(out, c);
      rest := rest[w..];
    }
    assert out == goal;
    out := out + [QUOTE];
  }

  lemma StringsNext(tag: seq<Text>, j: nat)
    requires j < |tag|
    ensures Strings(tag[j..], j == 0) == Separator(j == 0) + JsonString(tag[j]) + Strings(tag[j + 1..], false)
  {
    assert tag[j..][0] == tag[j] && tag[j..][1..] == tag[j + 1..];
  }

  lemma TagListNext(tags: seq<seq<Text>>, i: nat)
    requires i < |tags|
    ensures TagList(tags[i..], i == 0) == Separator(i == 0) + Tag(tags[i]) + TagList(tags[i + 1..], false)
  {
    assert tags[i..][0] == tags[i] && tags[i..][1..] == tags[i + 1..];
  }

  method AppendSeparator(dst: Text, first: bool) returns (out: Text)
    ensures out == dst + Separator(first)
  {
    out := dst;
    if !first {
      out := out + [COMMA];
    }
  }

  method AppendValue(dst: Text, first: bool, value: Text) returns (out: Text)
    ensures out == dst + (Separator(first) + JsonString(value))
  {
    out := AppendSeparator(dst, first);
    out := AppendJsonString(out, value);
    Regroup(dst, Separator(first), JsonString(value));
  }

  method AppendTag(dst: Text, first: bool, tag: seq<Text>) returns (out: Text)
    ensures out == dst + (Separator(first) + Tag(tag))
  {
    out := AppendSeparator(dst, first);
    ghost var before := out;
    out := out + [OPEN];
    ghost var goal := out + Strings(tag, true);
    for j := 0 to |tag|
      invariant out + Strings(tag[j..], j == 0) == goal
    {
      StringsNext(tag, j);
      Regroup(out, Separator(j == 0) + JsonString(tag[j]), Strings(tag[j + 1..], false));
      out := AppendValue(out, j == 0, tag[j]);
    }
    assert out == goal;
    out := out + [CLOSE];
    Bracketed(before, Strings(tag, true));
    Regroup(dst, Separator(first), Tag(tag));
  }

  lemma Bracketed(dst: Text, items: Text)
    ensures dst + [OPEN] + items + [CLOSE] == dst + ([OPEN] + items + [CLOSE])
  {
  }

  method AppendTags(dst: Text, tags: seq<seq<Text>>) returns (out: Text)
    ensures out == dst + TagList(tags, true)
  {
    out := dst;
    ghost var goal := out + TagList(tags, true);
    for i := 0 to |tags|
      invariant out + TagList(tags[i..], i == 0) == goal
    {
      TagListNext(tags, i);
      Regroup(out, Separator(i == 0) + Tag(tags[i]), TagList(tags[i + 1..], false));
      out := AppendTag(out, i == 0, tags[i]);
    }
    assert out == goal;
  }

  /** The bytes the event id is the hash of. */
  method CanonicalBytes(e: Event) returns (out: Text)
    ensures out == Preimage(e)
  {
    out := AppendJsonString([OPEN, ZERO, COMMA], e.pubkey);
    out := out + [COMMA] + Decimal(e.createdAt) + [COMMA] + Decimal(e.kind) + [COMMA, OPEN];
    out := AppendTags(out, e.tags);
    out := out + [CLOSE, COMMA];
    out := AppendJsonString(out, e.content);
    out := out + [CLOSE];
  }
}
