/**
  JSON text as the launcher writes and reads it: compact, over Unicode characters, encoded
  in UTF-8 (section 3 of RFC 3629) with the string escapes of section 7 of RFC 8259.
*/
module JsonText {
  import opened Common

  // ----- UTF-8 -----

  function Encode(c: char): (bytes: seq<Byte>)
    ensures 1 <= |bytes| <= 4
  {
    var n := c as int;
    if n < 0x80 then [n]
    else if n < 0x800 then [0xc0 + n / 64, 0x80 + n % 64]
    else if n < 0x1_0000 then [0xe0 + n / 64 / 64, 0x80 + n / 64 % 64, 0x80 + n % 64]
    else [0xf0 + n / 64 / 64 / 64, 0x80 + n / 64 / 64 % 64, 0x80 + n / 64 % 64, 0x80 + n % 64]
  }

  function EncodeAll(s: string): seq<Byte> {
    if s == "" then [] else Encode(s[0]) + EncodeAll(s[1..])
  }

  predicate Continues(bytes: seq<Byte>, i: nat) {
    i < |bytes| && 0x80 <= bytes[i] < 0xc0
  }

  predicate IsScalar(n: int) {
    0 <= n < 0xd800 || 0xe000 <= n < 0x11_0000
  }

  /** The character at the front and how many bytes it takes; no overlong form, no surrogate. */
  function DecodeFirst(bytes: seq<Byte>): (r: Option<(char, nat)>)
    requires bytes != []
    ensures r.Some? ==> 1 <= r.value.1 <= |bytes|
  {
    var b: int := bytes[0];
    if b < 0x80 then Some((b as char, 1))
    else if 0xc0 <= b < 0xe0 && Continues(bytes, 1) then Scalar(64 * (b - 0xc0) + Low(bytes, 1), 0x80, 2)
    else if 0xe0 <= b < 0xf0 && Continues(bytes, 1) && Continues(bytes, 2) then
      Scalar(64 * (64 * (b - 0xe0) + Low(bytes, 1)) + Low(bytes, 2), 0x800, 3)
    else if 0xf0 <= b < 0xf8 && Continues(bytes, 1) && Continues(bytes, 2) && Continues(bytes, 3) then
      Scalar(64 * (64 * (64 * (b - 0xf0) + Low(bytes, 1)) + Low(bytes, 2)) + Low(bytes, 3), 0x1_0000, 4)
    else None
  }

  function Low(bytes: seq<Byte>, i: nat): int
    requires Continues(bytes, i)
  {
    bytes[i] as int - 0x80
  }

  function Scalar(n: int, least: int, size: nat): Option<(char, nat)> {
    if least <= n && IsScalar(n) then Some((n as char, size)) else None
  }

  function DecodeAll(bytes: seq<Byte>): Option<string>
    decreases |bytes|
  {
    if bytes == [] then Some("")
    else
      var first := DecodeFirst(bytes);
      if first == None then None
      else
        var rest := DecodeAll(bytes[first.value.1..]);
        if rest == None then None else Some([first.value.0] + rest.value)
  }

  lemma FirstRoundTrip(c: char, rest: seq<Byte>)
    ensures DecodeFirst(Encode(c) + rest) == Some((c, |Encode(c)|))
  {
    var n := c as int;
    var m, k := n / 64, n / 64 / 64;
    assert n == 64 * m + n % 64 && m == 64 * k + m % 64 && k == 64 * (k / 64) + k % 64;
    var bytes := Encode(c) + rest;
    assert bytes[..|Encode(c)|] == Encode(c);
    assert forall i | 0 <= i < |Encode(c)| :: bytes[i] == Encode(c)[i];
  }

  lemma {:induction false} Utf8RoundTrip(s: string)
    ensures DecodeAll(EncodeAll(s)) == Some(s)
  {
    if s != "" {
      FirstRoundTrip(s[0], EncodeAll(s[1..]));
      Utf8RoundTrip(s[1..]);
      assert EncodeAll(s)[|Encode(s[0])|..] == EncodeAll(s[1..]);
      assert [s[0]] + s[1..] == s;
    }
  }

  lemma {:induction false} EncodeConcat(a: string, b: string)
    ensures EncodeAll(a + b) == EncodeAll(a) + EncodeAll(b)
  {
    if a == "" {
      assert a + b == b;
    } else {
      assert (a + b)[0] == a[0] && (a + b)[1..] == a[1..] + b;
      EncodeConcat(a[1..], b);
      assert Encode(a[0]) + (EncodeAll(a[1..]) + EncodeAll(b)) == Encode(a[0]) + EncodeAll(a[1..]) + EncodeAll(b);
    }
  }

  // ----- values -----

  datatype Json = Null | Bool(b: bool) | Num(n: nat) | Str(s: string) | Obj(fields: seq<Field>)

  datatype Field = Field(name: string, value: Json)

  function Escape(c: char): string {
    if c == '"' then "\\\""
    else if c == '\\' then "\\\\"
    else if c as int == 8 then "\\b"
    else if c as int == 9 then "\\t"
    else if c as int == 10 then "\\n"
    else if c as int == 12 then "\\f"
    else if c as int == 13 then "\\r"
    else if c as int < 0x20 then "\\u00" + [HEX_DIGITS[c as int / 16], HEX_DIGITS[c as int % 16]]
    else [c]
  }

  function EscapeAll(s: string): string {
    if s == "" then "" else Escape(s[0]) + EscapeAll(s[1..])
  }

  function PrintString(s: string): string {
    "\"" + (EscapeAll(s) + "\"")
  }

  function Print(j: Json): string
    decreases j, 0
  {
    match j
    case Null => "null"
    case Bool(b) => if b then "true" else "false"
    case Num(n) => Decimal(n)
    case Str(s) => PrintString(s)
    case Obj(fields) => "{" + if fields == [] then "}" else PrintFields(fields)
  }

  /** The fields and the closing brace. */
  function PrintFields(fields: seq<Field>): string
    requires fields != []
    decreases fields, 1
  {
    PrintString(fields[0].name) + (":" + (Print(fields[0].value) + PrintRest(fields)))
  }

  function PrintRest(fields: seq<Field>): string
    requires fields != []
    decreases fields, 0
  {
    if |fields| == 1 then "}" else "," + PrintFields(fields[1..])
  }

  // ----- reading -----

  function HexValue(c: char): Option<nat> {
    if '0' <= c <= '9' then Some(c as int - '0' as int)
    else if 'a' <= c <= 'f' then Some(c as int - 'a' as int + 10)
    else if 'A' <= c <= 'F' then Some(c as int - 'A' as int + 10)
    else None
  }

  /** The four digits after a backslash and a u. */
  function CodeUnit(s: string): (r: Option<nat>)
    ensures r.Some? ==> 4 <= |s| && r.value < 0x1_0000
  {
    if |s| < 4 || HexValue(s[0]) == None || HexValue(s[1]) == None || HexValue(s[2]) == None || HexValue(s[3]) == None then None
    else Some(HexValue(s[0]).value * 0x1000 + HexValue(s[1]).value * 0x100 + HexValue(s[2]).value * 0x10 + HexValue(s[3]).value)
  }

  /** One character of a string, escaped or not, and how much text it takes. */
  function ReadChar(s: string): (r: Option<(char, nat)>)
    requires s != ""
    ensures r.Some? ==> 1 <= r.value.1 <= |s|
  {
    if s[0] == '"' || s[0] as int < 0x20 then None
    else if s[0] != '\\' then Some((s[0], 1))
    else if |s| < 2 then None
    else if s[1] == '"' || s[1] == '\\' || s[1] == '/' then Some((s[1], 2))
    else if s[1] == 'b' then Some((8 as char, 2))
    else if s[1] == 't' then Some((9 as char, 2))
    else if s[1] == 'n' then Some((10 as char, 2))
    else if s[1] == 'f' then Some((12 as char, 2))
    else if s[1] == 'r' then Some((13 as char, 2))
    else if s[1] != 'u' || CodeUnit(s[2..]) == None then None
    else
      var unit := CodeUnit(s[2..]).value;
      if IsScalar(unit) then Some((unit as char, 6))
      else if unit < 0xdc00 && |s| >= 12 && s[6] == '\\' && s[7] == 'u' && CodeUnit(s[8..]).Some? then
        var low := CodeUnit(s[8..]).value;
        if 0xdc00 <= low < 0xe000 then Some(((0x1_0000 + (unit - 0xd800) * 0x400 + (low - 0xdc00)) as char, 12)) else None
      else None
  }

  /** The rest of a string after its opening quote. */
  function ReadString(s: string): (r: Option<(string, string)>)
    ensures r.Some? ==> |r.value.1| < |s|
    decreases |s|
  {
    if s == "" then None
    else if s[0] == '"' then Some(("", s[1..]))
    else
      var first := ReadChar(s);
      if first == None then None
      else
        var rest := ReadString(s[first.value.1..]);
        if rest == None then None else Some(([first.value.0] + rest.value.0, rest.value.1))
  }

  predicate IsDigit(c: char) {
    '0' <= c <= '9'
  }

  function ReadDigits(s: string, value: nat): (r: (nat, string))
    ensures |r.1| <= |s|
  {
    if s == "" || !IsDigit(s[0]) then (value, s) else ReadDigits(s[1..], 10 * value + (s[0] as int - '0' as int))
  }

  function ReadLiteral(s: string, word: string, value: Json): Option<(Json, string)> {
    if word <= s then Some((value, s[|word|..])) else None
  }

  /** A leading zero stands alone. */
  function ReadNumber(s: string): (r: Option<(Json, string)>)
    ensures r.Some? ==> |r.value.1| < |s|
  {
    if s == "" || !IsDigit(s[0]) || (s[0] == '0' && |s| > 1 && IsDigit(s[1])) then None
    else
      var number := ReadDigits(s[1..], s[0] as int - '0' as int);
      Some((Num(number.0), number.1))
  }

  function ReadValue(s: string): (r: Option<(Json, string)>)
    ensures r.Some? ==> |r.value.1| < |s|
    decreases |s|, 0
  {
    if s == "" then None
    else if s[0] == 'n' then ReadLiteral(s, "null", Null)
    else if s[0] == 't' then ReadLiteral(s, "true", Bool(true))
    else if s[0] == 'f' then ReadLiteral(s, "false", Bool(false))
    else if s[0] == '"' then
      var text := ReadString(s[1..]);
      if text == None then None else Some((Str(text.value.0), text.value.1))
    else if s[0] == '{' then
      if |s| > 1 && s[1] == '}' then Some((Obj([]), s[2..]))
      else
        var fields := ReadFields(s[1..]);
        if fields == None then None else Some((Obj(fields.value.0), fields.value.1))
    else ReadNumber(s)
  }

  /** Fields up to and including the closing brace. */
  function ReadFields(s: string): (r: Option<(seq<Field>, string)>)
    ensures r.Some? ==> |r.value.1| < |s|
    decreases |s|, 1
  {
    if s == "" || s[0] != '"' then None
    else
      var key := ReadString(s[1..]);
      if key == None || key.value.1 == "" || key.value.1[0] != ':' then None
      else
        var value := ReadValue(key.value.1[1..]);
        if value == None || value.value.1 == "" then None
        else
          var field, rest := Field(key.value.0, value.value.0), value.value.1;
          if rest[0] == '}' then Some(([field], rest[1..]))
          else if rest[0] != ',' then None
          else
            var more := ReadFields(rest[1..]);
            if more == None then None else Some(([field] + more.value.0, more.value.1))
  }

  // ----- reading undoes printing -----

  lemma EscapeReads(c: char, rest: string)
    ensures ReadChar(Escape(c) + rest) == Some((c, |Escape(c)|))
    ensures Escape(c) != "" && Escape(c)[0] != '"'
  {
    var s := Escape(c) + rest;
    if c as int < 0x20 && c as int !in {8, 9, 10, 12, 13} {
      var n := c as int;
      assert s[0] == '\\' && s[1] == 'u' && s[2] == '0' && s[3] == '0' && s[4] == HEX_DIGITS[n / 16] && s[5] == HEX_DIGITS[n % 16];
      HexReads(n / 16);
      HexReads(n % 16);
      assert CodeUnit(s[2..]) == Some(n);
    } else if |Escape(c)| == 2 {
      assert s[0] == '\\' && s[1] == Escape(c)[1];
    } else {
      assert s[0] == c;
    }
  }

  lemma HexReads(n: nat)
    requires n < 16
    ensures HexValue(HEX_DIGITS[n]) == Some(n)
  {
    if n < 10 { assert HEX_DIGITS[n] as int == '0' as int + n; } else { assert HEX_DIGITS[n] as int == 'a' as int + n - 10; }
  }

  lemma {:induction false} StringReads(s: string, rest: string)
    ensures ReadString(EscapeAll(s) + ("\"" + rest)) == Some((s, rest))
  {
    var tail := "\"" + rest;
    if s == "" {
      assert EscapeAll(s) + tail == tail && tail[1..] == rest;
    } else {
      var after := EscapeAll(s[1..]) + tail;
      assert EscapeAll(s) + tail == Escape(s[0]) + after;
      EscapeReads(s[0], after);
      assert (Escape(s[0]) + after)[|Escape(s[0])|..] == after;
      StringReads(s[1..], rest);
      assert [s[0]] + s[1..] == s;
    }
  }

  lemma {:induction false} DigitsRead(n: nat, rest: string)
    ensures ReadDigits(Decimal(n) + rest, 0) == ReadDigits(rest, n)
    ensures forall i | 0 <= i < |Decimal(n)| :: IsDigit(Decimal(n)[i])
    ensures n > 0 ==> Decimal(n)[0] != '0'
  {
    var s := Decimal(n) + rest;
    if n < 10 {
      assert s[0] == HEX_DIGITS[n] && s[1..] == rest;
      assert HEX_DIGITS[n] as int == '0' as int + n;
    } else {
      var last := [HEX_DIGITS[n % 10]] + rest;
      assert s == Decimal(n / 10) + last;
      DigitsRead(n / 10, last);
      assert last[0] == HEX_DIGITS[n % 10] && last[1..] == rest;
      assert HEX_DIGITS[n % 10] as int == '0' as int + n % 10;
    }
  }

  /** What may follow a value: nothing that could be taken for part of a number. */
  predicate Delimited(rest: string) {
    rest == "" || !IsDigit(rest[0])
  }

  lemma NumberReads(n: nat, rest: string)
    requires Delimited(rest)
    ensures ReadNumber(Decimal(n) + rest) == Some((Num(n), rest)) && IsDigit(Decimal(n)[0])
  {
    var s := Decimal(n) + rest;
    DigitsRead(n, rest);
    assert s[0] == Decimal(n)[0];
    assert ReadDigits(s, 0) == ReadDigits(s[1..], s[0] as int - '0' as int);
    if s[0] == '0' { assert n == 0 && Decimal(0) == "0" && s[1..] == rest; }
  }

  lemma LiteralReads(word: string, value: Json, rest: string)
    ensures ReadLiteral(word + rest, word, value) == Some((value, rest))
  {
    assert (word + rest)[|word|..] == rest;
  }

  lemma {:induction false} ValueReads(j: Json, rest: string)
    requires Delimited(rest)
    ensures ReadValue(Print(j) + rest) == Some((j, rest))
    decreases j, 0
  {
    hide ReadNumber, ReadLiteral, ReadString, ReadFields, PrintFields, EscapeAll, Decimal;
    var s := Print(j) + rest;
    match j
    case Null => LiteralReads("null", j, rest);
    case Bool(b) =>
      LiteralReads(if b then "true" else "false", j, rest);
      assert s[0] == if b then 't' else 'f';
    case Num(n) =>
      NumberReads(n, rest);
      assert s[0] == Decimal(n)[0];
    case Str(t) =>
      assert s[0] == '"' && s[1..] == EscapeAll(t) + ("\"" + rest);
      StringReads(t, rest);
    case Obj(fields) =>
      if fields == [] {
        assert s[2..] == rest && s[0] == '{' && s[1] == '}';
      } else {
        assert s[0] == '{' && s[1..] == PrintFields(fields) + rest;
        FieldsStart(fields);
        assert s[1] == '"';
        FieldsRead(fields, rest);
      }
  }

  lemma FieldsStart(fields: seq<Field>)
    requires fields != []
    ensures PrintFields(fields) != "" && PrintFields(fields)[0] == '"'
  {
  }

  lemma Regroup(e: string, v: string, tail: string, rest: string)
    ensures ("\"" + (e + "\"")) + (":" + (v + tail)) + rest == "\"" + (e + ("\"" + (":" + (v + (tail + rest)))))
  {
  }

  lemma FieldsPrint(fields: seq<Field>, rest: string)
    requires fields != []
    ensures PrintFields(fields) + rest
         == "\"" + (EscapeAll(fields[0].name) + ("\"" + (":" + (Print(fields[0].value) + (PrintRest(fields) + rest)))))
  {
    hide EscapeAll, Print, PrintRest;
    Regroup(EscapeAll(fields[0].name), Print(fields[0].value), PrintRest(fields), rest);
  }

  lemma {:induction false} FieldsRead(fields: seq<Field>, rest: string)
    requires fields != []
    ensures ReadFields(PrintFields(fields) + rest) == Some((fields, rest))
    decreases fields, 1
  {
    hide ReadValue, ReadString, Print, PrintFields, EscapeAll;
    var first := fields[0];
    var after := PrintRest(fields) + rest;
    var s := PrintFields(fields) + rest;
    FieldsPrint(fields, rest);
    assert s[1..] == EscapeAll(first.name) + ("\"" + (":" + (Print(first.value) + after)));
    StringReads(first.name, ":" + (Print(first.value) + after));
    assert (":" + (Print(first.value) + after))[1..] == Print(first.value) + after;
    ValueReads(first.value, after);
    if |fields| == 1 {
      assert after[1..] == rest && fields == [first];
    } else {
      assert after[1..] == PrintFields(fields[1..]) + rest;
      FieldsRead(fields[1..], rest);
      assert [first] + fields[1..] == fields;
    }
  }
}
