/** Serialised JSON as sections 2 to 7 of RFC 8259 define it, with its optional whitespace, as UTF-8 bytes. */
module JsonText {
  import opened Wrappers

  type Byte = b: int | 0 <= b < 256

  const QUOTE: Byte := 0x22
  const BACKSLASH: Byte := 0x5C
  const OPEN: Byte := 0x7B
  const CLOSE: Byte := 0x7D

  predicate IsSpace(b: Byte) { b in [0x20, 0x09, 0x0A, 0x0D] }

  predicate IsDigit(b: Byte) { 0x30 <= b <= 0x39 }

  predicate IsHex(b: Byte) { IsDigit(b) || 0x41 <= b <= 0x46 || 0x61 <= b <= 0x66 }

  lemma HexDigits(b: Byte)
    ensures IsHex(b) <==> b as char in "0123456789abcdefABCDEF"
    ensures IsDigit(b) <==> b as char in "0123456789"
  {
  }

  /** `"`, `\`, `/`, and the letters of \b \f \n \r \t. */
  predicate IsEscapable(b: Byte) { b in [0x22, 0x5C, 0x2F, 0x62, 0x66, 0x6E, 0x72, 0x74] }

  type Space = w: seq<Byte> | forall b | b in w :: IsSpace(b)

  type Digits = d: seq<Byte> | d != [] && forall b | b in d :: IsDigit(b) witness [0x30]

  /** No leading zeros. */
  type Integer = d: Digits | |d| == 1 || d[0] != 0x30 witness [0x30]

  type Hex = b: Byte | IsHex(b) witness 0x30

  /** Anything but a quotation mark, a backslash and the control characters; other characters are several bytes. */
  type Unescaped = b: Byte | b >= 0x20 && b != QUOTE && b != BACKSLASH witness 0x20

  type Escapable = b: Byte | IsEscapable(b) witness QUOTE

  datatype Char = Plain(b: Unescaped) | Escaped(c: Escapable) | Unicode(h0: Hex, h1: Hex, h2: Hex, h3: Hex)

  datatype Exponent = Exponent(mark: ExponentMark, sign: Option<Sign>, digits: Digits)

  type ExponentMark = b: Byte | b == 0x65 || b == 0x45 witness 0x65

  type Sign = b: Byte | b == 0x2B || b == 0x2D witness 0x2B

  datatype Value =
    | Null
    | True
    | False
    | Number(negative: bool, integer: Integer, fraction: Option<Digits>, exponent: Option<Exponent>)
    | Text(chars: seq<Char>)
    | Array(blank: Space, items: seq<Item>)
    | Object(blank: Space, members: seq<Member>)

  datatype Item = Item(before: Space, value: Value, after: Space)

  datatype Member = Member(beforeName: Space, name: seq<Char>, afterName: Space,
                           beforeValue: Space, value: Value, afterValue: Space)

  function PrintChar(c: Char): seq<Byte> {
    match c
    case Plain(b) => [b]
    case Escaped(e) => [BACKSLASH, e]
    case Unicode(h0, h1, h2, h3) => [BACKSLASH, 0x75, h0, h1, h2, h3]
  }

  function PrintChars(chars: seq<Char>): seq<Byte> {
    if chars == [] then [] else PrintChar(chars[0]) + PrintChars(chars[1..])
  }

  function PrintText(chars: seq<Char>): seq<Byte> {
    [QUOTE] + PrintChars(chars) + [QUOTE]
  }

  function PrintFraction(fraction: Option<Digits>): seq<Byte> {
    match fraction
    case None => []
    case Some(digits) => [0x2E] + digits
  }

  function PrintExponent(exponent: Option<Exponent>): seq<Byte> {
    match exponent
    case None => []
    case Some(e) => (if e.sign.Some? then [e.mark, e.sign.value] else [e.mark]) + e.digits
  }

  function PrintNumber(negative: bool, integer: Integer, fraction: Option<Digits>, exponent: Option<Exponent>): seq<Byte> {
    ((if negative then [0x2D] else []) + integer) + (PrintFraction(fraction) + PrintExponent(exponent))
  }

  function PrintValue(v: Value): seq<Byte>
    decreases v
  {
    match v
    case Null => [0x6E, 0x75, 0x6C, 0x6C]
    case True => [0x74, 0x72, 0x75, 0x65]
    case False => [0x66, 0x61, 0x6C, 0x73, 0x65]
    case Number(negative, integer, fraction, exponent) => PrintNumber(negative, integer, fraction, exponent)
    case Text(chars) => PrintText(chars)
    case Array(blank, items) => [0x5B] + (blank + PrintItems(items)) + [0x5D]
    case Object(blank, members) => [OPEN] + (blank + PrintMembers(members)) + [CLOSE]
  }

  function Comma(more: bool): seq<Byte> {
    if more then [0x2C] else []
  }

  function PrintItem(i: Item): seq<Byte>
    decreases i
  {
    i.before + PrintValue(i.value) + i.after
  }

  function PrintItems(items: seq<Item>): seq<Byte>
    decreases items
  {
    if items == [] then [] else PrintItem(items[0]) + Comma(|items| > 1) + PrintItems(items[1..])
  }

  function PrintMember(m: Member): seq<Byte>
    decreases m
  {
    (m.beforeName + PrintText(m.name) + m.afterName) + [0x3A] + (m.beforeValue + PrintValue(m.value) + m.afterValue)
  }

  function PrintMembers(members: seq<Member>): seq<Byte>
    decreases members
  {
    if members == [] then [] else PrintMember(members[0]) + Comma(|members| > 1) + PrintMembers(members[1..])
  }

  // ---- Commas stand between, and only between ---------------------------------

  lemma Grouped<T>(a: seq<T>, b: seq<T>, c: seq<T>)
    ensures (a + b) + c == a + (b + c)
  {
  }

  lemma {:induction false} CharsAreJoined(a: seq<Char>, b: seq<Char>)
    ensures PrintChars(a + b) == PrintChars(a) + PrintChars(b)
    ensures |a| == 1 ==> PrintChars(a) == PrintChar(a[0])
  {
    if a == [] {
      assert a + b == b;
    } else {
      assert (a + b)[1..] == a[1..] + b;
      CharsAreJoined(a[1..], b);
      Grouped(PrintChar(a[0]), PrintChars(a[1..]), PrintChars(b));
    }
  }

  /** The items of an array stand side by side with one comma between any two. */
  lemma ItemFirst(x: Item, rest: seq<Item>)
    ensures PrintItems([x] + rest) == if rest == [] then PrintItem(x) else (PrintItem(x) + [0x2C]) + PrintItems(rest)
  {
    assert ([x] + rest)[1..] == rest;
  }

  /** So do the members of an object. */
  lemma MemberFirst(x: Member, rest: seq<Member>)
    ensures PrintMembers([x] + rest) == if rest == [] then PrintMember(x) else (PrintMember(x) + [0x2C]) + PrintMembers(rest)
  {
    assert ([x] + rest)[1..] == rest;
  }
}

/** Recovering the JSON object that a model wrapped in other text. */
module JsonExtraction {
  import opened Wrappers
  import opened JsonText

  // ---- The start: the first brace, read rune by rune -----------------------

  predicate IsContinuation(s: seq<Byte>, i: nat, low: Byte, high: Byte) {
    i < |s| && low <= s[i] <= high
  }

  /** How many bytes the rune at `i` takes; an invalid encoding is read one byte at a time. */
  function RuneWidth(s: seq<Byte>, i: nat): (width: nat)
    requires i < |s|
    ensures 1 <= width && i + width <= |s|
    ensures forall k | i < k < i + width :: s[k] >= 0x80
  {
    var b := s[i];
    if 0xC2 <= b <= 0xDF then
      if IsContinuation(s, i + 1, 0x80, 0xBF) then 2 else 1
    else if 0xE0 <= b <= 0xEF then
      var low := if b == 0xE0 then 0xA0 else 0x80;
      var high := if b == 0xED then 0x9F else 0xBF;
      if IsContinuation(s, i + 1, low, high) && IsContinuation(s, i + 2, 0x80, 0xBF) then 3 else 1
    else if 0xF0 <= b <= 0xF4 then
      var low := if b == 0xF0 then 0x90 else 0x80;
      var high := if b == 0xF4 then 0x8F else 0xBF;
      if IsContinuation(s, i + 1, low, high) && IsContinuation(s, i + 2, 0x80, 0xBF) && IsContinuation(s, i + 3, 0x80, 0xBF)
      then 4 else 1
    else 1
  }

  /** Only the one-byte rune is a brace: longer encodings never decode below 0x80. */
  method FindJsonStart(s: seq<Byte>) returns (start: int)
    ensures start == -1 <==> OPEN !in s
    ensures start != -1 ==> 0 <= start < |s| && s[start] == OPEN && OPEN !in s[..start]
  {
    var i := 0;
    while i < |s|
      invariant i <= |s| && OPEN !in s[..i]
    {
      if s[i] == OPEN {
        return i;
      }
      i := i + RuneWidth(s, i);
    }
    return -1;
  }

  // ---- The end: the brace that closes the first one ------------------------

  datatype Scan = Scan(depth: int, inString: bool, escaped: bool)

  /** A scan over a text is still going on, or it ended at an offset. */
  datatype Outcome = Going(scan: Scan) | Ended(at: nat)

  const START := Scan(0, false, false)

  function ScanByte(st: Scan, ch: Byte): Outcome {
    if st.escaped then Going(st.(escaped := false))
    else if ch == BACKSLASH && st.inString then Going(st.(escaped := true))
    else if ch == QUOTE then Going(st.(inString := !st.inString))
    else if st.inString then Going(st)
    else if ch == OPEN then Going(st.(depth := st.depth + 1))
    else if ch == CLOSE then
      if st.depth - 1 == 0 then Ended(0) else Going(st.(depth := st.depth - 1))
    else Going(st)
  }

  /** The same outcome seen from `n` bytes earlier. */
  function Shift(o: Outcome, n: nat): Outcome {
    if o.Ended? then Ended(n + o.at) else o
  }

  function ScanText(st: Scan, text: seq<Byte>): Outcome
    decreases text
  {
    if text == [] then Going(st)
    else
      match ScanByte(st, text[0])
      case Ended(_) => Ended(0)
      case Going(st') => Shift(ScanText(st', text[1..]), 1)
  }

  /** Scanning two texts one after the other. */
  lemma {:induction false} ScanConcat(st: Scan, a: seq<Byte>, b: seq<Byte>)
    ensures ScanText(st, a + b) ==
            if ScanText(st, a).Ended? then ScanText(st, a) else Shift(ScanText(ScanText(st, a).scan, b), |a|)
    decreases a
  {
    if a == [] {
      assert a + b == b;
    } else {
      assert (a + b)[1..] == a[1..] + b;
      var first := ScanByte(st, a[0]);
      if first.Going? {
        ScanConcat(first.scan, a[1..], b);
      }
    }
  }

  lemma ScanOne(st: Scan, ch: Byte)
    ensures ScanText(st, [ch]) == ScanByte(st, ch)
  {
  }

  method FindJsonEnd(s: seq<Byte>, start: nat) returns (end: int)
    requires start <= |s|
    ensures match ScanText(START, s[start..])
            case Ended(k) => end == start + k
            case Going(_) => end == -1
  {
    var depth := 0;
    var inString, escaped := false, false;
    assert s[start..start] == [];
    for i := start to |s|
      invariant ScanText(START, s[start..i]) == Going(Scan(depth, inString, escaped))
    {
      var ch := s[i];
      ScanConcat(START, s[start..i], [ch]);
      assert s[start..i + 1] == s[start..i] + [ch];
      if escaped {
        escaped := false;
        continue;
      }
      if ch == BACKSLASH && inString {
        escaped := true;
        continue;
      }
      if ch == QUOTE {
        inString := !inString;
        continue;
      }
      if inString {
        continue;
      }
      if ch == OPEN {
        depth := depth + 1;
      } else if ch == CLOSE {
        depth := depth - 1;
        if depth == 0 {
          ScanConcat(START, s[start..i + 1], s[i + 1..]);
          assert s[start..] == s[start..i + 1] + s[i + 1..];
          return i;
        }
      }
    }
    assert s[start..|s|] == s[start..];
    return -1;
  }

  // ---- Balanced texts ------------------------------------------------------

  /** Inside an object, scanning the text neither ends nor leaves anything open. */
  ghost predicate Neutral(text: seq<Byte>) {
    forall d | d >= 1 :: ScanText(Scan(d, false, false), text) == Going(Scan(d, false, false))
  }

  lemma NeutralConcat(a: seq<Byte>, b: seq<Byte>)
    requires Neutral(a) && Neutral(b)
    ensures Neutral(a + b)
  {
    forall d | d >= 1 ensures ScanText(Scan(d, false, false), a + b) == Going(Scan(d, false, false)) {
      ScanConcat(Scan(d, false, false), a, b);
    }
  }

  predicate IsOrdinary(b: Byte) { b != QUOTE && b != OPEN && b != CLOSE }

  lemma {:induction false} OrdinaryIsNeutral(text: seq<Byte>)
    requires forall b | b in text :: IsOrdinary(b)
    ensures Neutral(text)
  {
    if text != [] {
      OrdinaryIsNeutral(text[1..]);
      assert IsOrdinary(text[0]);
    }
  }

  /** Inside a string, a printed character is skipped whole, escapes included. */
  lemma CharStaysInString(d: int, c: Char)
    ensures ScanText(Scan(d, true, false), PrintChar(c)) == Going(Scan(d, true, false))
  {
    match c
    case Plain(b) => ScanOne(Scan(d, true, false), b);
    case Escaped(e) =>
      assert PrintChar(c) == [BACKSLASH, e] + [];
      EscapeStaysInString(d, e, []);
    case Unicode(h0, h1, h2, h3) => EscapeStaysInString(d, 0x75, [h0, h1, h2, h3]);
  }

  lemma EscapeStaysInString(d: int, e: Byte, hex: seq<Byte>)
    requires forall b | b in hex :: IsHex(b)
    ensures ScanText(Scan(d, true, false), [BACKSLASH, e] + hex) == Going(Scan(d, true, false))
  {
    ScanOne(Scan(d, true, false), BACKSLASH);
    ScanOne(Scan(d, true, true), e);
    ScanConcat(Scan(d, true, false), [BACKSLASH], [e]);
    assert [BACKSLASH, e] == [BACKSLASH] + [e];
    HexStaysInString(d, hex);
    ScanConcat(Scan(d, true, false), [BACKSLASH, e], hex);
  }

  lemma {:induction false} HexStaysInString(d: int, text: seq<Byte>)
    requires forall b | b in text :: IsHex(b)
    ensures ScanText(Scan(d, true, false), text) == Going(Scan(d, true, false))
  {
    if text != [] {
      assert IsHex(text[0]);
      HexStaysInString(d, text[1..]);
    }
  }

  lemma {:induction false} CharsStayInString(d: int, chars: seq<Char>)
    ensures ScanText(Scan(d, true, false), PrintChars(chars)) == Going(Scan(d, true, false))
  {
    if chars != [] {
      CharStaysInString(d, chars[0]);
      CharsStayInString(d, chars[1..]);
      ScanConcat(Scan(d, true, false), PrintChar(chars[0]), PrintChars(chars[1..]));
    }
  }

  lemma TextIsNeutral(chars: seq<Char>)
    ensures Neutral(PrintText(chars))
  {
    forall d | d >= 1 ensures ScanText(Scan(d, false, false), PrintText(chars)) == Going(Scan(d, false, false)) {
      ScanOne(Scan(d, false, false), QUOTE);
      CharsStayInString(d, chars);
      ScanConcat(Scan(d, false, false), [QUOTE], PrintChars(chars));
      ScanOne(Scan(d, true, false), QUOTE);
      ScanConcat(Scan(d, false, false), [QUOTE] + PrintChars(chars), [QUOTE]);
    }
  }

  lemma OpenBrace(body: seq<Byte>, d: nat)
    requires Neutral(body)
    ensures ScanText(Scan(d, false, false), [OPEN] + body) == Going(Scan(d + 1, false, false))
  {
    ScanOne(Scan(d, false, false), OPEN);
    ScanConcat(Scan(d, false, false), [OPEN], body);
  }

  lemma CloseBrace(front: seq<Byte>, d: nat)
    requires ScanText(Scan(d, false, false), front) == Going(Scan(d + 1, false, false))
    ensures ScanText(Scan(d, false, false), front + [CLOSE])
         == if d == 0 then Ended(|front|) else Going(Scan(d, false, false))
  {
    ScanOne(Scan(d + 1, false, false), CLOSE);
    ScanConcat(Scan(d, false, false), front, [CLOSE]);
  }

  /** Braces around a neutral text: neutral inside an object, a complete object on their own. */
  lemma BracesAround(body: seq<Byte>, d: nat)
    requires Neutral(body)
    ensures ScanText(Scan(d, false, false), [OPEN] + body + [CLOSE])
         == if d == 0 then Ended(|body| + 1) else Going(Scan(d, false, false))
  {
    OpenBrace(body, d);
    CloseBrace([OPEN] + body, d);
  }

  lemma ObjectIsNeutral(body: seq<Byte>)
    requires Neutral(body)
    ensures Neutral([OPEN] + body + [CLOSE])
  {
    forall d | d >= 1 ensures ScanText(Scan(d, false, false), [OPEN] + body + [CLOSE]) == Going(Scan(d, false, false)) {
      BracesAround(body, d);
    }
  }

  lemma ArrayIsNeutral(body: seq<Byte>)
    requires Neutral(body)
    ensures Neutral([0x5B] + body + [0x5D])
  {
    OrdinaryIsNeutral([0x5B]);
    OrdinaryIsNeutral([0x5D]);
    NeutralConcat([0x5B], body);
    NeutralConcat([0x5B] + body, [0x5D]);
  }

  lemma DigitsAreNeutral(digits: Digits)
    ensures Neutral(digits)
  {
    assert forall b | b in digits :: IsDigit(b);
    OrdinaryIsNeutral(digits);
  }

  lemma MarkedDigitsAreNeutral(marks: seq<Byte>, digits: Digits)
    requires forall b | b in marks :: IsOrdinary(b)
    ensures Neutral(marks + digits)
  {
    OrdinaryIsNeutral(marks);
    DigitsAreNeutral(digits);
    NeutralConcat(marks, digits);
  }

  lemma NumberIsNeutral(negative: bool, integer: Integer, fraction: Option<Digits>, exponent: Option<Exponent>)
    ensures Neutral(PrintNumber(negative, integer, fraction, exponent))
  {
    var sign := if negative then [0x2D] else [];
    MarkedDigitsAreNeutral(sign, integer);
    if fraction.Some? {
      MarkedDigitsAreNeutral([0x2E], fraction.value);
    }
    if exponent.Some? {
      var e := exponent.value;
      MarkedDigitsAreNeutral(if e.sign.Some? then [e.mark, e.sign.value] else [e.mark], e.digits);
    }
    NeutralConcat(PrintFraction(fraction), PrintExponent(exponent));
    NeutralConcat(sign + integer, PrintFraction(fraction) + PrintExponent(exponent));
  }

  lemma SpacedIsNeutral(before: Space, text: seq<Byte>, after: Space)
    requires Neutral(text)
    ensures Neutral(before + text + after)
  {
    OrdinaryIsNeutral(before);
    OrdinaryIsNeutral(after);
    NeutralConcat(before, text);
    NeutralConcat(before + text, after);
  }

  lemma BlankIsNeutral(blank: Space, body: seq<Byte>)
    requires Neutral(body)
    ensures Neutral(blank + body)
  {
    OrdinaryIsNeutral(blank);
    NeutralConcat(blank, body);
  }

  lemma LiteralIsNeutral(v: Value)
    requires v.Null? || v.True? || v.False?
    ensures Neutral(PrintValue(v))
  {
    OrdinaryIsNeutral(PrintValue(v));
  }

  lemma SameIsNeutral(a: seq<Byte>, b: seq<Byte>)
    requires Neutral(a) && a == b
    ensures Neutral(b)
  {
  }

  lemma ArrayValueIsNeutral(blank: Space, items: seq<Item>)
    requires Neutral(PrintItems(items))
    ensures Neutral(PrintValue(Array(blank, items)))
  {
    BlankIsNeutral(blank, PrintItems(items));
    ArrayIsNeutral(blank + PrintItems(items));
    SameIsNeutral([0x5B] + (blank + PrintItems(items)) + [0x5D], PrintValue(Array(blank, items)));
  }

  lemma ObjectValueIsNeutral(blank: Space, members: seq<Member>)
    requires Neutral(PrintMembers(members))
    ensures Neutral(PrintValue(Object(blank, members)))
  {
    BlankIsNeutral(blank, PrintMembers(members));
    ObjectIsNeutral(blank + PrintMembers(members));
    SameIsNeutral([OPEN] + (blank + PrintMembers(members)) + [CLOSE], PrintValue(Object(blank, members)));
  }

  lemma AtomIsNeutral(v: Value)
    requires !v.Array? && !v.Object?
    ensures Neutral(PrintValue(v))
  {
    match v
    case Number(negative, integer, fraction, exponent) => NumberIsNeutral(negative, integer, fraction, exponent);
    case Text(chars) => TextIsNeutral(chars);
    case _ => LiteralIsNeutral(v);
  }

  lemma {:induction false} ValueIsNeutral(v: Value)
    ensures Neutral(PrintValue(v))
    decreases v
  {
    match v
    case Array(blank, items) =>
      ItemsAreNeutral(items);
      ArrayValueIsNeutral(blank, items);
    case Object(blank, members) =>
      MembersAreNeutral(members);
      ObjectValueIsNeutral(blank, members);
    case _ => AtomIsNeutral(v);
  }

  lemma ListIsNeutral(first: seq<Byte>, more: bool, rest: seq<Byte>)
    requires Neutral(first) && Neutral(rest)
    ensures Neutral(first + Comma(more) + rest)
  {
    OrdinaryIsNeutral(Comma(more));
    NeutralConcat(first, Comma(more));
    NeutralConcat(first + Comma(more), rest);
  }

  lemma {:induction false} ItemsAreNeutral(items: seq<Item>)
    ensures Neutral(PrintItems(items))
    decreases items
  {
    if items != [] {
      ValueIsNeutral(items[0].value);
      SpacedIsNeutral(items[0].before, PrintValue(items[0].value), items[0].after);
      ItemsAreNeutral(items[1..]);
      ListIsNeutral(PrintItem(items[0]), |items| > 1, PrintItems(items[1..]));
    }
  }

  lemma {:induction false} MemberIsNeutral(m: Member)
    ensures Neutral(PrintMember(m))
    decreases m
  {
    TextIsNeutral(m.name);
    SpacedIsNeutral(m.beforeName, PrintText(m.name), m.afterName);
    ValueIsNeutral(m.value);
    SpacedIsNeutral(m.beforeValue, PrintValue(m.value), m.afterValue);
    var name := m.beforeName + PrintText(m.name) + m.afterName;
    OrdinaryIsNeutral([0x3A]);
    NeutralConcat(name, [0x3A]);
    NeutralConcat(name + [0x3A], m.beforeValue + PrintValue(m.value) + m.afterValue);
  }

  lemma {:induction false} MembersAreNeutral(members: seq<Member>)
    ensures Neutral(PrintMembers(members))
    decreases members
  {
    if members != [] {
      MemberIsNeutral(members[0]);
      MembersAreNeutral(members[1..]);
      ListIsNeutral(PrintMember(members[0]), |members| > 1, PrintMembers(members[1..]));
    }
  }

  // ---- Extraction is exact -------------------------------------------------

  /** Scanning from the first byte of a printed object ends at its last byte, whatever follows. */
  lemma ObjectEndsAtItsBrace(obj: Value, post: seq<Byte>)
    requires obj.Object?
    ensures ScanText(START, PrintValue(obj) + post) == Ended(|PrintValue(obj)| - 1)
  {
    MembersAreNeutral(obj.members);
    BlankIsNeutral(obj.blank, PrintMembers(obj.members));
    BracesAround(obj.blank + PrintMembers(obj.members), 0);
    ScanConcat(START, PrintValue(obj), post);
  }

  lemma {:induction false} ScanEndsWithin(st: Scan, text: seq<Byte>)
    ensures ScanText(st, text).Ended? ==> ScanText(st, text).at < |text|
    decreases text
  {
    if text != [] && ScanByte(st, text[0]).Going? {
      ScanEndsWithin(ScanByte(st, text[0]).scan, text[1..]);
    }
  }

  /** A response cut off anywhere inside the object has no end. */
  lemma TruncatedObjectHasNoEnd(obj: Value, n: nat)
    requires obj.Object? && n < |PrintValue(obj)|
    ensures ScanText(START, PrintValue(obj)[..n]).Going?
  {
    var doc := PrintValue(obj);
    ObjectEndsAtItsBrace(obj, []);
    assert doc + [] == doc == doc[..n] + doc[n..];
    ScanConcat(START, doc[..n], doc[n..]);
    ScanEndsWithin(START, doc[..n]);
  }

  /** `at` is the place of the first opening brace. */
  predicate FirstBraceAt(text: seq<Byte>, at: nat) {
    at < |text| && text[at] == OPEN && OPEN !in text[..at]
  }

  /** `text` holds the object between a prefix without an opening brace and any other text. */
  ghost predicate Wraps(text: seq<Byte>, pre: seq<Byte>, obj: Value, post: seq<Byte>) {
    obj.Object? && OPEN !in pre && text == pre + PrintValue(obj) + post
  }

  /** The prefix matters: the first brace is the object's if and only if no brace comes before it. */
  lemma ObjectComesFirstIffNoEarlierBrace(pre: seq<Byte>, obj: Value, post: seq<Byte>)
    requires obj.Object?
    ensures FirstBraceAt(pre + PrintValue(obj) + post, |pre|) <==> OPEN !in pre
  {
    var text := pre + PrintValue(obj) + post;
    assert PrintValue(obj)[0] == OPEN;
    assert text[|pre|] == PrintValue(obj)[0];
    assert text[..|pre|] == pre;
  }

  lemma EarlierIsInPrefix(text: seq<Byte>, i: nat, j: nat)
    requires i < j <= |text|
    ensures text[i] in text[..j]
  {
    assert text[..j][i] == text[i];
  }

  lemma FirstBraceIsUnique(text: seq<Byte>, i: nat, j: nat)
    requires FirstBraceAt(text, i) && FirstBraceAt(text, j)
    ensures i == j
  {
    if i < j {
      EarlierIsInPrefix(text, i, j);
    } else if j < i {
      EarlierIsInPrefix(text, j, i);
    }
  }

  lemma WrappedObject(text: seq<Byte>, pre: seq<Byte>, obj: Value, post: seq<Byte>)
    requires Wraps(text, pre, obj, post)
    ensures FirstBraceAt(text, |pre|)
    ensures ScanText(START, text[|pre|..]) == Ended(|PrintValue(obj)| - 1)
    ensures text[|pre|..|pre| + |PrintValue(obj)|] == PrintValue(obj)
    ensures |PrintValue(obj)| >= 2
  {
    ObjectComesFirstIffNoEarlierBrace(pre, obj, post);
    assert text[|pre|..] == PrintValue(obj) + post;
    ObjectEndsAtItsBrace(obj, post);
  }

  /** What a start and an end found in a text mean for every way of reading it as a wrapped object. */
  lemma FoundBoundsAreTheObject(text: seq<Byte>, start: int, end: int, pre: seq<Byte>, obj: Value, post: seq<Byte>)
    requires Wraps(text, pre, obj, post)
    requires start == -1 ==> OPEN !in text
    requires start != -1 ==> start >= 0 && FirstBraceAt(text, start)
    requires start >= 0 && ScanText(START, text[start..]).Ended? ==> end == start + ScanText(START, text[start..]).at
    ensures start == |pre| && end == start + |PrintValue(obj)| - 1 > start && text[start..end + 1] == PrintValue(obj)
  {
    WrappedObject(text, pre, obj, post);
    assert text[|pre|] in text;
    FirstBraceIsUnique(text, start, |pre|);
  }

  /**
   The slice that is decoded when the response as a whole is not JSON: exactly the object, however it is wrapped and
   whatever braces, quotes and backslashes its strings hold.
   */
  method ExtractObject(text: seq<Byte>) returns (r: Option<seq<Byte>>)
    ensures OPEN !in text ==> r == None
    ensures forall pre, obj, post | Wraps(text, pre, obj, post) :: r == Some(PrintValue(obj))
  {
    var start := FindJsonStart(text);
    var end := -1;
    if start >= 0 {
      end := FindJsonEnd(text, start);
      ScanEndsWithin(START, text[start..]);
    }
    forall pre, obj, post | Wraps(text, pre, obj, post)
      ensures start == |pre| && end == start + |PrintValue(obj)| - 1 > start && text[start..end + 1] == PrintValue(obj)
    {
      FoundBoundsAreTheObject(text, start, end, pre, obj, post);
    }
    if start >= 0 && end > start {
      return Some(text[start..end + 1]);
    }
    return None;
  }
}
