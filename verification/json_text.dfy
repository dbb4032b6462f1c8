/** `JSON.stringify` and `JSON.parse` for the values the dashboard keeps in
    browser storage. `Encode` writes the compact text `JSON.stringify`
    produces; `Decode` reads that text back and rejects anything it cannot
    read (the case where `JSON.parse` throws). */
module JsonText {
  import opened Wrappers
  import opened Json
  import opened Text

  function HexDigit(d: nat): (c: char)
    requires d < 16
  {
    if d < 10 then DigitChar(d) else ('a' as int + d - 10) as char
  }

  function HexValue(c: char): (r: Option<nat>)
    ensures r.Some? ==> r.value < 16
  {
    if '0' <= c <= '9' then Some(c as int - '0' as int)
    else if 'a' <= c <= 'f' then Some(c as int - 'a' as int + 10)
    else if 'A' <= c <= 'F' then Some(c as int - 'A' as int + 10)
    else None
  }

  /** How `JSON.stringify` writes one character inside a string literal. */
  function EscapeChar(c: char): (r: string)
    ensures |r| >= 1
  {
    if c == '"' then "\\\""
    else if c == '\\' then "\\\\"
    else if c == '\U{0008}' then "\\b"
    else if c == '\U{000C}' then "\\f"
    else if c == '\n' then "\\n"
    else if c == '\r' then "\\r"
    else if c == '\t' then "\\t"
    else if (c as int) < 0x20 then "\\u00" + [HexDigit(c as int / 16), HexDigit(c as int % 16)]
    else [c]
  }

  function Escape(s: string): string
    decreases |s|
  {
    if |s| == 0 then "" else EscapeChar(s[0]) + Escape(s[1..])
  }

  function Quote(s: string): string {
    "\"" + Escape(s) + "\""
  }

  /** `JSON.stringify(v)`. */
  function Encode(v: Json): (r: string)
    ensures |r| >= 1
    decreases v
  {
    match v
    case JNull => "null"
    case JBool(b) => if b then "true" else "false"
    case JNum(n) => IntString(n)
    case JStr(s) => Quote(s)
    case JArr(items) => "[" + EncodeItems(items) + "]"
    case JObj(fields) => "{" + EncodeFields(fields) + "}"
  }

  function EncodeItems(items: seq<Json>): string
    decreases items
  {
    if |items| == 0 then ""
    else if |items| == 1 then Encode(items[0])
    else Encode(items[0]) + "," + EncodeItems(items[1..])
  }

  function EncodeFields(fields: seq<(string, Json)>): string
    decreases fields
  {
    if |fields| == 0 then ""
    else if |fields| == 1 then EncodeMember(fields[0])
    else EncodeMember(fields[0]) + "," + EncodeFields(fields[1..])
  }

  function EncodeMember(kv: (string, Json)): string
    decreases kv
  {
    Quote(kv.0) + ":" + Encode(kv.1)
  }

  /** The character an escape sequence (the text after a backslash) stands
      for, and how many characters the sequence takes. Escapes of UTF-16
      surrogate halves are not read. */
  function Unescape(s: string): (r: Option<(char, nat)>)
    ensures r.Some? ==> 1 <= r.value.1 <= |s|
  {
    if |s| == 0 then None
    else if s[0] == '"' then Some(('"', 1))
    else if s[0] == '\\' then Some(('\\', 1))
    else if s[0] == '/' then Some(('/', 1))
    else if s[0] == 'b' then Some(('\U{0008}', 1))
    else if s[0] == 'f' then Some(('\U{000C}', 1))
    else if s[0] == 'n' then Some(('\n', 1))
    else if s[0] == 'r' then Some(('\r', 1))
    else if s[0] == 't' then Some(('\t', 1))
    else if s[0] == 'u' && |s| >= 5 then
      match (HexValue(s[1]), HexValue(s[2]), HexValue(s[3]), HexValue(s[4]))
      case (Some(a), Some(b), Some(c), Some(d)) =>
        var code := ((a * 16 + b) * 16 + c) * 16 + d;
        if 0xD800 <= code < 0xE000 then None else Some((code as char, 5))
      case _ => None
    else None
  }

  /** Reads the body of a string literal up to and including its closing
      quote; yields the string and the text after the quote. */
  function ParseString(s: string): (r: Option<(string, string)>)
    ensures r.Some? ==> |r.value.1| < |s|
    decreases |s|
  {
    if |s| == 0 then None
    else if s[0] == '"' then Some(("", s[1..]))
    else if (s[0] as int) < 0x20 then None
    else if s[0] == '\\' then
      match Unescape(s[1..])
      case None => None
      case Some((c, k)) =>
        match ParseString(s[1 + k..])
        case None => None
        case Some((t, rest)) => Some(([c] + t, rest))
    else
      match ParseString(s[1..])
      case None => None
      case Some((t, rest)) => Some(([s[0]] + t, rest))
  }

  /** Reads a run of decimal digits; JSON forbids a leading zero before
      another digit, so "01" is rejected. */
  function ParseNat(s: string): (r: Option<(nat, string)>)
    ensures r.Some? ==> |r.value.1| < |s|
    ensures |s| > 1 && s[0] == '0' && IsDigit(s[1]) ==> r.None?
    ensures r.Some? ==> |s| > 0 && IsDigit(s[0]) && (r.value.1 == [] || !IsDigit(r.value.1[0]))
  {
    var k := DigitRun(s);
    if k == 0 || (k > 1 && s[0] == '0') then None else Some((DigitsValue(s[..k]), s[k..]))
  }

  /** Reads a number: an optional minus sign and a run of digits. */
  function ParseNumber(s: string): (r: Option<(Json, string)>)
    ensures r.Some? ==> |r.value.1| < |s|
  {
    if |s| > 0 && s[0] == '-' then
      match ParseNat(s[1..])
      case None => None
      case Some((n, rest)) => Some((JNum(-(n as int)), rest))
    else
      match ParseNat(s)
      case None => None
      case Some((n, rest)) => Some((JNum(n), rest))
  }

  /** Reads one JSON value at the start of `s`; yields it and the text after it. */
  function ParseValue(s: string): (r: Option<(Json, string)>)
    ensures r.Some? ==> |r.value.1| < |s|
    decreases |s|, 1
  {
    if |s| == 0 then None
    else if s[0] == 'n' then (if IsPrefix("null", s) then Some((JNull, s[4..])) else None)
    else if s[0] == 't' then (if IsPrefix("true", s) then Some((JBool(true), s[4..])) else None)
    else if s[0] == 'f' then (if IsPrefix("false", s) then Some((JBool(false), s[5..])) else None)
    else if s[0] == '"' then
      match ParseString(s[1..])
      case None => None
      case Some((t, rest)) => Some((JStr(t), rest))
    else if s[0] == '[' then ParseArray(s[1..])
    else if s[0] == '{' then ParseObject(s[1..])
    else ParseNumber(s)
  }

  /** Reads an array after its `[`. */
  function ParseArray(s: string): (r: Option<(Json, string)>)
    ensures r.Some? ==> |r.value.1| < |s|
    decreases |s|, 4
  {
    if |s| > 0 && s[0] == ']' then Some((JArr([]), s[1..]))
    else
      match ParseItems(s)
      case None => None
      case Some((items, rest)) => Some((JArr(items), rest))
  }

  /** Reads an object after its `{`. */
  function ParseObject(s: string): (r: Option<(Json, string)>)
    ensures r.Some? ==> |r.value.1| < |s|
    decreases |s|, 4
  {
    if |s| > 0 && s[0] == '}' then Some((JObj([]), s[1..]))
    else
      match ParseFields(s)
      case None => None
      case Some((fields, rest)) => Some((JObj(fields), rest))
  }

  /** Reads the elements of a non-empty array up to and including its `]`. */
  function ParseItems(s: string): (r: Option<(seq<Json>, string)>)
    ensures r.Some? ==> |r.value.1| < |s|
    decreases |s|, 2
  {
    match ParseValue(s)
    case None => None
    case Some((v, rest)) =>
      if |rest| > 0 && rest[0] == ',' then
        match ParseItems(rest[1..])
        case None => None
        case Some((vs, rest2)) => Some(([v] + vs, rest2))
      else if |rest| > 0 && rest[0] == ']' then Some(([v], rest[1..]))
      else None
  }

  /** Reads one object member, `"key":value`. */
  function ParseMember(s: string): (r: Option<((string, Json), string)>)
    ensures r.Some? ==> |r.value.1| < |s|
    decreases |s|, 2
  {
    if |s| == 0 || s[0] != '"' then None
    else
      match ParseString(s[1..])
      case None => None
      case Some((key, r1)) =>
        if |r1| == 0 || r1[0] != ':' then None
        else
          match ParseValue(r1[1..])
          case None => None
          case Some((v, r2)) => Some(((key, v), r2))
  }

  /** Reads the members of a non-empty object up to and including its `}`. */
  function ParseFields(s: string): (r: Option<(seq<(string, Json)>, string)>)
    ensures r.Some? ==> |r.value.1| < |s|
    decreases |s|, 3
  {
    match ParseMember(s)
    case None => None
    case Some((kv, rest)) =>
      if |rest| > 0 && rest[0] == ',' then
        match ParseFields(rest[1..])
        case None => None
        case Some((fs, rest2)) => Some(([kv] + fs, rest2))
      else if |rest| > 0 && rest[0] == '}' then Some(([kv], rest[1..]))
      else None
  }

  /** `JSON.parse(s)` for the compact form `Encode` writes: `None` where
      `JSON.parse` throws, and also for whitespace, fractions, exponents and
      lone surrogate escapes, which this reader does not accept. */
  function Decode(s: string): Option<Json> {
    match ParseValue(s)
    case Some((v, rest)) => if rest == "" then Some(v) else None
    case None => None
  }

  /** A number written with a leading zero, such as "01" or "-007", is
      not JSON: `JSON.parse` throws on it and so does `Decode`. */
  lemma LeadingZeroRejected(ds: string, negative: bool)
    requires |ds| > 1 && ds[0] == '0' && AllDigits(ds)
    ensures Decode(if negative then "-" + ds else ds).None?
  {
    var s := if negative then "-" + ds else ds;
    if negative {
      assert s[0] == '-' && s[1..] == ds;
    }
    assert IsDigit(ds[1]);
  }

  // ---------------------------------------------------------------------
  // Round trip: Decode(Encode(v)) == Some(v)
  // ---------------------------------------------------------------------

  lemma HexRoundTrip(d: nat)
    requires d < 16
    ensures HexValue(HexDigit(d)) == Some(d)
  {
  }

  /** A character written as itself is read back as itself. */
  lemma PlainStep(c: char, tail: string)
    requires EscapeChar(c) == [c]
    ensures ParseString([c] + tail) ==
      (match ParseString(tail) case None => None case Some((t, rest)) => Some(([c] + t, rest)))
  {
    assert ([c] + tail)[1..] == tail;
  }

  /** The escape written after the backslash reads back as the character. */
  lemma UnescapeEscape(c: char, tail: string)
    requires |EscapeChar(c)| > 1
    ensures EscapeChar(c)[0] == '\\'
    ensures Unescape(EscapeChar(c)[1..] + tail) == Some((c, |EscapeChar(c)| - 1))
  {
    var e := EscapeChar(c);
    if |e| == 2 {
      assert (e[1..] + tail)[0] == e[1];
    } else {
      var code := c as int;
      HexRoundTrip(code / 16);
      HexRoundTrip(code % 16);
      var u := e[1..] + tail;
      assert u[0] == 'u' && u[1] == '0' && u[2] == '0';
      assert u[3] == HexDigit(code / 16) && u[4] == HexDigit(code % 16);
    }
  }

  /** A character written as an escape is read back as itself. */
  lemma EscapedStep(c: char, tail: string)
    requires |EscapeChar(c)| > 1
    ensures ParseString(EscapeChar(c) + tail) ==
      (match ParseString(tail) case None => None case Some((t, rest)) => Some(([c] + t, rest)))
  {
    var e := EscapeChar(c);
    var s := e + tail;
    UnescapeEscape(c, tail);
    assert s[1..] == e[1..] + tail;
    assert s[1 + (|e| - 1)..] == tail;
  }

  /** One written character is read back as itself. */
  lemma ParseStringStep(c: char, tail: string)
    ensures ParseString(EscapeChar(c) + tail) ==
      (match ParseString(tail) case None => None case Some((t, rest)) => Some(([c] + t, rest)))
  {
    if |EscapeChar(c)| == 1 {
      PlainStep(c, tail);
    } else {
      EscapedStep(c, tail);
    }
  }

  lemma {:induction false} StringRoundTrip(t: string, rest: string)
    ensures ParseString(Escape(t) + "\"" + rest) == Some((t, rest))
    decreases |t|
  {
    if |t| == 0 {
      assert Escape(t) + "\"" + rest == "\"" + rest;
    } else {
      var tail := Escape(t[1..]) + "\"" + rest;
      StringRoundTrip(t[1..], rest);
      assert Escape(t) + "\"" + rest == EscapeChar(t[0]) + tail;
      ParseStringStep(t[0], tail);
      assert [t[0]] + t[1..] == t;
    }
  }

  /** What may follow an encoded value without changing how it is read: a
      digit would extend a number. */
  predicate SafeFollower(rest: string) {
    rest == [] || !IsDigit(rest[0])
  }

  lemma NatRoundTrip(n: nat, rest: string)
    requires SafeFollower(rest)
    ensures ParseNat(NatString(n) + rest) == Some((n, rest))
  {
    var ds := NatString(n);
    DigitRunOf(ds, rest);
    assert (ds + rest)[..|ds|] == ds;
    assert (ds + rest)[|ds|..] == rest;
    NatStringValue(n);
  }

  lemma LiteralRoundTrip(v: Json, rest: string)
    requires v.JNull? || v.JBool?
    ensures ParseValue(Encode(v) + rest) == Some((v, rest))
  {
    var s := Encode(v) + rest;
    if v.JNull? {
      assert s[4..] == rest;
    } else if v.b {
      assert s[4..] == rest;
    } else {
      assert s[0] == 'f';
      assert s[5..] == rest;
    }
  }

  lemma DropFirst(a: string, b: string)
    requires |a| >= 1
    ensures (a + b)[0] == a[0] && (a + b)[1..] == a[1..] + b
  {
  }

  lemma NegativeRoundTrip(n: int, rest: string)
    requires n < 0 && SafeFollower(rest)
    ensures ParseNumber(IntString(n) + rest) == Some((JNum(n), rest))
  {
    var digits := NatString(-n);
    assert IntString(n)[1..] == digits;
    DropFirst(IntString(n), rest);
    NatRoundTrip(-n, rest);
  }

  lemma NonNegativeRoundTrip(n: nat, rest: string)
    requires SafeFollower(rest)
    ensures ParseNumber(IntString(n) + rest) == Some((JNum(n), rest))
  {
    var s := NatString(n) + rest;
    assert IntString(n) == NatString(n);
    assert s[0] == NatString(n)[0];
    NatRoundTrip(n, rest);
  }

  lemma NumRoundTrip(n: int, rest: string)
    requires SafeFollower(rest)
    ensures ParseValue(Encode(JNum(n)) + rest) == Some((JNum(n), rest))
  {
    var s := IntString(n) + rest;
    assert s[0] == IntString(n)[0];
    if n < 0 {
      NegativeRoundTrip(n, rest);
    } else {
      NonNegativeRoundTrip(n, rest);
    }
  }

  lemma StrRoundTrip(t: string, rest: string)
    ensures ParseValue(Encode(JStr(t)) + rest) == Some((JStr(t), rest))
  {
    var s := Encode(JStr(t)) + rest;
    StringRoundTrip(t, rest);
    assert s[1..] == Escape(t) + "\"" + rest;
  }

  lemma {:induction false} ValueRoundTrip(v: Json, rest: string)
    requires SafeFollower(rest)
    ensures ParseValue(Encode(v) + rest) == Some((v, rest))
    decreases v, 0
  {
    match v
    case JArr(items) => ArrRoundTrip(items, rest);
    case JObj(fields) => ObjRoundTrip(fields, rest);
    case JNum(n) => NumRoundTrip(n, rest);
    case JStr(t) => StrRoundTrip(t, rest);
    case _ => LiteralRoundTrip(v, rest);
  }

  /** Past the opening bracket of a bracketed text comes its body. */
  lemma Opened(open: char, inner: string, close: char, rest: string)
    ensures var s := [open] + inner + [close] + rest;
      |s| > 0 && s[0] == open && s[1..] == inner + [close] + rest
  {
    DropFirst([open], inner + [close] + rest);
  }

  lemma {:induction false} ArrRoundTrip(items: seq<Json>, rest: string)
    requires SafeFollower(rest)
    ensures ParseValue(Encode(JArr(items)) + rest) == Some((JArr(items), rest))
    decreases items, 2
  {
    Opened('[', EncodeItems(items), ']', rest);
    if |items| > 0 {
      ItemsRoundTrip(items, rest);
      EncodeItemsStart(items);
    }
  }

  lemma {:induction false} ObjRoundTrip(fields: seq<(string, Json)>, rest: string)
    requires SafeFollower(rest)
    ensures ParseValue(Encode(JObj(fields)) + rest) == Some((JObj(fields), rest))
    decreases fields, 2
  {
    Opened('{', EncodeFields(fields), '}', rest);
    if |fields| > 0 {
      FieldsRoundTrip(fields, rest);
      EncodeFieldsStart(fields);
    }
  }

  /** A non-empty object's text starts with the quote of its first key. */
  lemma EncodeFieldsStart(fields: seq<(string, Json)>)
    requires |fields| > 0
    ensures |EncodeFields(fields)| > 0 && EncodeFields(fields)[0] == '"'
  {
    var q := Quote(fields[0].0);
    assert |q| > 0 && q[0] == '"';
    var m := EncodeMember(fields[0]);
    assert |m| > 0 && m[0] == '"';
  }

  /** A non-empty array's text never starts with `]`. */
  lemma EncodeItemsStart(items: seq<Json>)
    requires |items| > 0
    ensures EncodeItems(items)[0] != ']'
  {
    var e := Encode(items[0]);
    assert EncodeItems(items)[0] == e[0];
    match items[0]
    case JNum(n) =>
    case JStr(_) =>
    case JArr(_) =>
    case JObj(_) =>
    case JNull =>
    case JBool(b) =>
  }

  lemma {:induction false} ItemsRoundTrip(items: seq<Json>, rest: string)
    requires |items| > 0
    ensures ParseItems(EncodeItems(items) + "]" + rest) == Some((items, rest))
    decreases items, 1
  {
    var s := EncodeItems(items) + "]" + rest;
    if |items| == 1 {
      assert s == Encode(items[0]) + ("]" + rest);
      ValueRoundTrip(items[0], "]" + rest);
      assert ("]" + rest)[1..] == rest;
      assert [items[0]] == items;
    } else {
      var tail := EncodeItems(items[1..]) + "]" + rest;
      assert s == Encode(items[0]) + ("," + tail);
      ValueRoundTrip(items[0], "," + tail);
      assert ("," + tail)[1..] == tail;
      ItemsRoundTrip(items[1..], rest);
      assert [items[0]] + items[1..] == items;
    }
  }

  /** The key of an object member, with its colon, is read back. */
  lemma KeyStep(key: string, r1: string)
    ensures var s := Quote(key) + r1;
      |s| > 0 && s[0] == '"' && ParseString(s[1..]) == Some((key, r1))
  {
    var s := Quote(key) + r1;
    assert s[1..] == Escape(key) + "\"" + r1;
    StringRoundTrip(key, r1);
  }

  lemma Regroup(a: string, b: string, c: string, d: string)
    ensures a + b + c + d == a + (b + (c + d))
  {
  }

  /** One object member is read back as itself. */
  lemma {:induction false} MemberRoundTrip(kv: (string, Json), after: string)
    requires SafeFollower(after)
    ensures ParseMember(EncodeMember(kv) + after) == Some((kv, after))
    decreases kv, 0
  {
    var value := Encode(kv.1);
    var r1 := ":" + (value + after);
    Regroup(Quote(kv.0), ":", value, after);
    KeyStep(kv.0, r1);
    DropFirst(":", value + after);
    ValueRoundTrip(kv.1, after);
  }

  /** One object member followed by `,` or `}` is read back as itself. */
  lemma {:induction false} MemberStep(kv: (string, Json), after: string)
    requires |after| > 0 && (after[0] == ',' || after[0] == '}')
    ensures ParseFields(EncodeMember(kv) + after) ==
      (if after[0] == ',' then
         (match ParseFields(after[1..]) case None => None case Some((fs, r3)) => Some(([kv] + fs, r3)))
       else Some(([kv], after[1..])))
    decreases kv, 1
  {
    MemberRoundTrip(kv, after);
  }

  lemma {:induction false} FieldsRoundTrip(fields: seq<(string, Json)>, rest: string)
    requires |fields| > 0
    ensures ParseFields(EncodeFields(fields) + "}" + rest) == Some((fields, rest))
    decreases fields, 1
  {
    if |fields| == 1 {
      var after := "}" + rest;
      assert EncodeFields(fields) + "}" + rest == EncodeMember(fields[0]) + after;
      MemberStep(fields[0], after);
      assert after[1..] == rest;
      assert [fields[0]] == fields;
    } else {
      var after := "," + (EncodeFields(fields[1..]) + "}" + rest);
      assert EncodeFields(fields) + "}" + rest == EncodeMember(fields[0]) + after;
      MemberStep(fields[0], after);
      assert after[1..] == EncodeFields(fields[1..]) + "}" + rest;
      FieldsRoundTrip(fields[1..], rest);
      assert [fields[0]] + fields[1..] == fields;
    }
  }

  /** `JSON.parse(JSON.stringify(v))` gives back `v`. */
  lemma RoundTrip(v: Json)
    ensures Decode(Encode(v)) == Some(v)
  {
    ValueRoundTrip(v, "");
    assert Encode(v) + "" == Encode(v);
  }
}
