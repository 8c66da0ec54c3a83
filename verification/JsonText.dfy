/** Compact JSON text, written and read back: which values have one, and a writer and a strict
    reader that agree on all of them. */
module JsonText {
  import opened Wrappers
  import opened JsonValues

  // ----- Numbers -----

  /** CPython converts integers of at most this many digits from and to text. */
  const MAX_INT_DIGITS := 4300

  function Digit(n: nat): char
    requires n < 10
  {
    '0' + n as char
  }

  predicate IsDigit(c: char) {
    '0' <= c <= '9'
  }

  function DigitValue(c: char): nat
    requires IsDigit(c)
  {
    c as nat - '0' as nat
  }

  function Digits(n: nat): (s: string)
    ensures s != "" && forall k | 0 <= k < |s| :: IsDigit(s[k])
  {
    if n < 10 then [Digit(n)] else Digits(n / 10) + [Digit(n % 10)]
  }

  function NumberOf(s: string): int
    requires forall k | 0 <= k < |s| :: IsDigit(s[k])
  {
    if s == "" then 0 else NumberOf(s[..|s| - 1]) * 10 + DigitValue(s[|s| - 1])
  }

  lemma {:induction false} NumberOfDigits(n: nat)
    ensures NumberOf(Digits(n)) == n
  {
    if n < 10 {
      assert [Digit(n)][..0] == "";
    } else {
      NumberOfDigits(n / 10);
      var s := Digits(n / 10) + [Digit(n % 10)];
      assert s[..|s| - 1] == Digits(n / 10);
    }
  }

  function IntText(n: int): string {
    if n < 0 then "-" + Digits(-n) else Digits(n)
  }

  /** The end of the run of digits from `i` on. */
  function DigitsEnd(s: string, i: nat): (end: nat)
    requires i <= |s|
    ensures i <= end <= |s| && forall k | i <= k < end :: IsDigit(s[k])
    decreases |s| - i
  {
    if i < |s| && IsDigit(s[i]) then DigitsEnd(s, i + 1) else i
  }

  /** A JSON number with a fraction or an exponent: how a finite float is written. */
  predicate FloatText(s: string) {
    var first := if s != "" && s[0] == '-' then 1 else 0;
    var whole := DigitsEnd(s, first);
    var fraction := if whole < |s| && s[whole] == '.' then DigitsEnd(s, whole + 1) else whole;
    && first < whole < |s| && (s[first] == '0' ==> whole == first + 1)
    && fraction != whole + 1
    && (fraction == |s| || ExponentAt(s, fraction))
  }

  /** From `i` to the end: `e`, perhaps a sign, and digits. */
  predicate ExponentAt(s: string, i: nat)
    requires i < |s|
  {
    && (s[i] == 'e' || s[i] == 'E')
    && var digits := if i + 1 < |s| && (s[i + 1] == '+' || s[i + 1] == '-') then i + 2 else i + 1;
       digits < |s| && DigitsEnd(s, digits) == |s|
  }

  predicate NumberChar(c: char) {
    IsDigit(c) || c == '-' || c == '+' || c == '.' || c == 'e' || c == 'E'
  }

  predicate IntDigits(s: string) {
    s != "" && forall k | 0 <= k < |s| :: IsDigit(s[k])
  }

  /** The value of a whole number token; nothing for one with a leading zero or too many digits. */
  function ReadInt(token: string): Option<Json> {
    var negative := token != "" && token[0] == '-';
    var digits := if negative then token[1..] else token;
    if !IntDigits(digits) || |digits| > MAX_INT_DIGITS then None
    else
      var number := if negative then -NumberOf(digits) else NumberOf(digits);
      if IntText(number) == token then Some(Int(number)) else None
  }

  function ReadNumber(token: string): Option<Json> {
    if FloatText(token) then Some(Dec(token)) else ReadInt(token)
  }

  /** The longest prefix of number characters. */
  function NumberEnd(s: string): (end: nat)
    ensures end <= |s|
  {
    if s != "" && NumberChar(s[0]) then 1 + NumberEnd(s[1..]) else 0
  }

  // ----- Values that have a text -----

  predicate PrintableInt(n: int) {
    |Digits(if n < 0 then -n else n)| <= MAX_INT_DIGITS
  }

  /** What a strict JSON reader can return and `json.dumps` can write: no key twice, floats with
      a float's text, integers within the conversion limit. */
  ghost predicate Writable(j: Json)
    decreases j
  {
    match j
    case Null => true
    case Bool(_) => true
    case Int(number) => PrintableInt(number)
    case Dec(numeral) => FloatText(numeral)
    case Str(_) => true
    case Arr(items) => forall k | 0 <= k < |items| :: Writable(items[k])
    case Obj(fields) => UniqueKeys(fields) && forall k | 0 <= k < |fields| :: Writable(fields[k].value)
  }

  // ----- Writing -----

  function HexDigit(n: nat): char
    requires n < 16
  {
    if n < 10 then '0' + n as char else 'a' + (n - 10) as char
  }

  /** `json.dumps(..., ensure_ascii=False)` escapes the quote, the backslash and the control
      characters below U+0020, and nothing else. */
  function Escape(c: char): string {
    if c == '"' then "\\\""
    else if c == '\\' then "\\\\"
    else if c == '\n' then "\\n"
    else if c == '\r' then "\\r"
    else if c == '\t' then "\\t"
    else if c == '\U{8}' then "\\b"
    else if c == '\U{c}' then "\\f"
    else if c < ' ' then "\\u00" + [HexDigit(c as nat / 16), HexDigit(c as nat % 16)]
    else [c]
  }

  /** The characters of a string, its closing quote, and what follows. */
  function WriteChars(s: string, tail: string): string {
    if s == "" then "\"" + tail else Escape(s[0]) + WriteChars(s[1..], tail)
  }

  function WriteString(s: string, tail: string): string {
    "\"" + WriteChars(s, tail)
  }

  /** The compact text of a value, and what follows it. */
  function Write(j: Json, tail: string): string
    decreases j
  {
    match j
    case Null => "null" + tail
    case Bool(flag) => (if flag then "true" else "false") + tail
    case Int(number) => IntText(number) + tail
    case Dec(numeral) => numeral + tail
    case Str(text) => WriteString(text, tail)
    case Arr(items) => if items == [] then "[]" + tail else "[" + Write(items[0], WriteItems(items[1..], tail))
    case Obj(fields) =>
      if fields == [] then "{}" + tail else "{" + WriteField(fields[0], WriteFields(fields[1..], tail))
  }

  function WriteItems(items: seq<Json>, tail: string): string
    decreases items
  {
    if items == [] then "]" + tail else "," + Write(items[0], WriteItems(items[1..], tail))
  }

  function WriteField(field: Field, tail: string): string
    decreases field
  {
    WriteString(field.key, ":" + Write(field.value, tail))
  }

  function WriteFields(fields: seq<Field>, tail: string): string
    decreases fields
  {
    if fields == [] then "}" + tail else "," + WriteField(fields[0], WriteFields(fields[1..], tail))
  }

  function Dump(j: Json): string {
    Write(j, "")
  }

  // ----- Reading -----

  function HexValue(c: char): Option<nat> {
    if IsDigit(c) then Some(DigitValue(c))
    else if 'a' <= c <= 'f' then Some(c as nat - 'a' as nat + 10)
    else if 'A' <= c <= 'F' then Some(c as nat - 'A' as nat + 10)
    else None
  }

  /** The character of four hexadecimal digits; a surrogate is none. */
  function HexChar(s: string): Option<char>
    requires |s| == 4
  {
    match (HexValue(s[0]), HexValue(s[1]), HexValue(s[2]), HexValue(s[3]))
    case (Some(a), Some(b), Some(c), Some(d)) =>
      var code := a * 0x1000 + b * 0x100 + c * 0x10 + d;
      if 0xD800 <= code < 0xE000 || code >= 0x10000 then None else Some(code as char)
    case _ => None
  }

  /** The character that an escape at the start denotes, and the length of the escape. */
  function ReadEscape(s: string): (r: Option<(char, nat)>)
    ensures r.Some? ==> 2 <= r.value.1 <= |s|
  {
    if |s| < 2 then None
    else if s[1] == '"' || s[1] == '\\' || s[1] == '/' then Some((s[1], 2))
    else if s[1] == 'n' then Some(('\n', 2))
    else if s[1] == 'r' then Some(('\r', 2))
    else if s[1] == 't' then Some(('\t', 2))
    else if s[1] == 'b' then Some(('\U{8}', 2))
    else if s[1] == 'f' then Some(('\U{c}', 2))
    else if s[1] == 'u' && |s| >= 6 && HexChar(s[2..6]).Some? then Some((HexChar(s[2..6]).value, 6))
    else None
  }

  /** The rest of a string up to its closing quote, and what follows. */
  function ReadChars(s: string): (r: Option<(string, string)>)
    ensures r.Some? ==> |r.value.1| < |s|
    decreases |s|
  {
    if s == "" || s[0] < ' ' then None
    else if s[0] == '"' then Some(("", s[1..]))
    else if s[0] == '\\' then
      match ReadEscape(s)
      case None => None
      case Some((c, n)) => Longer(c, ReadChars(s[n..]))
    else Longer(s[0], ReadChars(s[1..]))
  }

  function Longer(c: char, read: Option<(string, string)>): Option<(string, string)> {
    match read
    case None => None
    case Some((chars, rest)) => Some(([c] + chars, rest))
  }

  /** One value at the start of a text, and what follows it. */
  function ReadValue(s: string): (r: Option<(Json, string)>)
    ensures r.Some? ==> |r.value.1| < |s|
    decreases |s|
  {
    if s == "" then None
    else if s[0] == 'n' then if "null" <= s then Some((Null, s[4..])) else None
    else if s[0] == 't' then if "true" <= s then Some((Bool(true), s[4..])) else None
    else if s[0] == 'f' then if "false" <= s then Some((Bool(false), s[5..])) else None
    else if s[0] == '"' then
      match ReadChars(s[1..])
      case None => None
      case Some((text, rest)) => Some((Str(text), rest))
    else if s[0] == '[' then
      if |s| > 1 && s[1] == ']' then Some((Arr([]), s[2..]))
      else
        match ReadValue(s[1..])
        case None => None
        case Some((first, more)) =>
          match ReadItems(more)
          case None => None
          case Some((items, rest)) => Some((Arr([first] + items), rest))
    else if s[0] == '{' then
      if |s| > 1 && s[1] == '}' then Some((Obj([]), s[2..]))
      else
        match ReadField(s[1..])
        case None => None
        case Some((first, more)) =>
          match ReadFields(more)
          case None => None
          case Some((fields, rest)) => if UniqueKeys([first] + fields) then Some((Obj([first] + fields), rest)) else None
    else
      match ReadNumber(s[..NumberEnd(s)])
      case None => None
      case Some(number) => Some((number, s[NumberEnd(s)..]))
  }

  function ReadItems(s: string): (r: Option<(seq<Json>, string)>)
    ensures r.Some? ==> |r.value.1| < |s|
    decreases |s|
  {
    if s == "" then None
    else if s[0] == ']' then Some(([], s[1..]))
    else if s[0] != ',' then None
    else
      match ReadValue(s[1..])
      case None => None
      case Some((first, more)) =>
        match ReadItems(more)
        case None => None
        case Some((items, rest)) => Some(([first] + items, rest))
  }

  function ReadField(s: string): (r: Option<(Field, string)>)
    ensures r.Some? ==> |r.value.1| < |s|
    decreases |s|
  {
    if s == "" || s[0] != '"' then None
    else
      match ReadChars(s[1..])
      case None => None
      case Some((key, more)) =>
        if more == "" || more[0] != ':' then None
        else
          match ReadValue(more[1..])
          case None => None
          case Some((value, rest)) => Some((Field(key, value), rest))
  }

  function ReadFields(s: string): (r: Option<(seq<Field>, string)>)
    ensures r.Some? ==> |r.value.1| < |s|
    decreases |s|
  {
    if s == "" then None
    else if s[0] == '}' then Some(([], s[1..]))
    else if s[0] != ',' then None
    else
      match ReadField(s[1..])
      case None => None
      case Some((first, more)) =>
        match ReadFields(more)
        case None => None
        case Some((fields, rest)) => Some(([first] + fields, rest))
  }

  /** A complete value and nothing after it. */
  function Parse(s: string): Option<Json> {
    match ReadValue(s)
    case Some((value, rest)) => if rest == "" then Some(value) else None
    case None => None
  }

  // ----- What is written is read back -----

  lemma ControlCode(c: char)
    requires c < ' '
    ensures HexChar("00" + [HexDigit(c as nat / 16), HexDigit(c as nat % 16)]) == Some(c)
  {
    var n := c as nat;
    assert HexValue(HexDigit(n / 16)) == Some(n / 16) && HexValue(HexDigit(n % 16)) == Some(n % 16);
    assert n / 16 * 0x10 + n % 16 == n;
  }

  lemma ReadControl(c: char, t: string)
    requires c < ' '
    ensures var e := "\\u00" + [HexDigit(c as nat / 16), HexDigit(c as nat % 16)];
            ReadEscape(e + t) == Some((c, 6)) && (e + t)[6..] == t
  {
    var s := "\\u00" + [HexDigit(c as nat / 16), HexDigit(c as nat % 16)] + t;
    hide HexChar, HexDigit;
    ControlCode(c);
    assert s[2..6] == "00" + [HexDigit(c as nat / 16), HexDigit(c as nat % 16)];
  }

  lemma ReadShort(c: char, t: string)
    requires |Escape(c)| == 2
    ensures ReadEscape(Escape(c) + t) == Some((c, 2)) && (Escape(c) + t)[2..] == t
  {
    hide HexChar, HexDigit;
  }

  lemma ReadEscaped(c: char, t: string)
    ensures ReadChars(Escape(c) + t) == Longer(c, ReadChars(t))
  {
    hide ReadEscape, HexDigit;
    if |Escape(c)| == 6 {
      ReadControl(c, t);
    } else if |Escape(c)| == 2 {
      ReadShort(c, t);
    } else {
      assert (Escape(c) + t)[1..] == t;
    }
  }

  lemma {:induction false} CharsReadBack(s: string, tail: string)
    ensures ReadChars(WriteChars(s, tail)) == Some((s, tail))
  {
    if s == "" {
      assert ("\"" + tail)[1..] == tail;
    } else {
      CharsReadBack(s[1..], tail);
      ReadEscaped(s[0], WriteChars(s[1..], tail));
      assert s == [s[0]] + s[1..];
    }
  }

  /** What follows a number must not prolong it. */
  predicate Stops(tail: string) {
    tail != "" ==> !NumberChar(tail[0])
  }

  lemma {:induction false} NumberEndsAt(token: string, tail: string)
    requires Stops(tail) && forall k | 0 <= k < |token| :: NumberChar(token[k])
    ensures NumberEnd(token + tail) == |token|
  {
    if token == "" {
      assert token + tail == tail;
    } else {
      assert (token + tail)[1..] == token[1..] + tail;
      NumberEndsAt(token[1..], tail);
    }
  }

  lemma FloatChars(s: string)
    requires FloatText(s)
    ensures s != "" && (IsDigit(s[0]) || s[0] == '-') && forall k | 0 <= k < |s| :: NumberChar(s[k])
  {
  }

  lemma IntIsNoFloat(n: int)
    ensures var s := IntText(n);
            s != "" && (IsDigit(s[0]) || s[0] == '-') && (forall k | 0 <= k < |s| :: NumberChar(s[k])) && !FloatText(s)
  {
    var s := IntText(n);
    var first := if s[0] == '-' then 1 else 0;
    assert forall k | first <= k < |s| :: IsDigit(s[k]);
    AllDigitsEnd(s, first);
  }

  lemma {:induction false} AllDigitsEnd(s: string, i: nat)
    requires i <= |s| && forall k | i <= k < |s| :: IsDigit(s[k])
    ensures DigitsEnd(s, i) == |s|
    decreases |s| - i
  {
    if i < |s| {
      AllDigitsEnd(s, i + 1);
    }
  }

  lemma IntReadsBack(n: int)
    requires PrintableInt(n)
    ensures ReadNumber(IntText(n)) == Some(Int(n))
  {
    IntIsNoFloat(n);
    if n < 0 {
      NumberOfDigits(-n);
      assert IntText(n)[1..] == Digits(-n);
    } else {
      NumberOfDigits(n);
    }
  }

  lemma NumberReadsBack(token: string, tail: string, j: Json)
    requires Stops(tail) && token != "" && (IsDigit(token[0]) || token[0] == '-')
    requires ReadNumber(token) == Some(j) && forall k | 0 <= k < |token| :: NumberChar(token[k])
    ensures ReadValue(token + tail) == Some((j, tail))
  {
    NumberEndsAt(token, tail);
    assert (token + tail)[..|token|] == token && (token + tail)[|token|..] == tail;
    assert (token + tail)[0] == token[0];
  }

  lemma {:induction false} ReadsBack(j: Json, tail: string)
    requires Writable(j) && Stops(tail)
    ensures ReadValue(Write(j, tail)) == Some((j, tail))
    decreases j
  {
    match j
    case Null => assert ("null" + tail)[4..] == tail;
    case Bool(flag) => assert ("true" + tail)[4..] == tail && ("false" + tail)[5..] == tail;
    case Int(number) =>
      IntIsNoFloat(number);
      IntReadsBack(number);
      NumberReadsBack(IntText(number), tail, j);
    case Dec(numeral) =>
      FloatChars(numeral);
      NumberReadsBack(numeral, tail, j);
    case Str(text) => StringReadsBack(text, tail);
    case Arr(items) => ListReadsBack(items, tail);
    case Obj(fields) => DictionaryReadsBack(fields, tail);
  }

  lemma {:induction false} ListReadsBack(items: seq<Json>, tail: string)
    requires forall k | 0 <= k < |items| :: Writable(items[k])
    ensures ReadValue(Write(Arr(items), tail)) == Some((Arr(items), tail))
    decreases items
  {
    if items == [] {
      assert ("[]" + tail)[2..] == tail;
    } else {
      var more := WriteItems(items[1..], tail);
      ItemsReadBack(items[1..], tail);
      ReadsBack(items[0], more);
      StartsAValue(items[0], more);
      assert ("[" + Write(items[0], more))[1..] == Write(items[0], more);
      assert items == [items[0]] + items[1..];
    }
  }

  lemma {:induction false} DictionaryReadsBack(fields: seq<Field>, tail: string)
    requires UniqueKeys(fields) && forall k | 0 <= k < |fields| :: Writable(fields[k].value)
    ensures ReadValue(Write(Obj(fields), tail)) == Some((Obj(fields), tail))
    decreases fields
  {
    if fields == [] {
      assert ("{}" + tail)[2..] == tail;
    } else {
      hide ReadNumber, NumberEnd, ReadChars, WriteChars;
      var more := WriteFields(fields[1..], tail);
      FieldsReadBack(fields[1..], tail);
      FieldReadsBack(fields[0], more);
      assert ("{" + WriteField(fields[0], more))[1..] == WriteField(fields[0], more);
      assert fields == [fields[0]] + fields[1..];
    }
  }

  lemma StringReadsBack(text: string, tail: string)
    ensures ReadValue(WriteString(text, tail)) == Some((Str(text), tail))
  {
    CharsReadBack(text, tail);
    assert WriteString(text, tail)[1..] == WriteChars(text, tail);
  }

  /** No value's text starts like the end of a list. */
  lemma StartsAValue(j: Json, tail: string)
    requires Writable(j)
    ensures Write(j, tail) != "" && Write(j, tail)[0] != ']'
  {
    match j
    case Int(number) => IntIsNoFloat(number);
    case Dec(numeral) => FloatChars(numeral);
    case _ =>
  }

  lemma {:induction false} ItemsReadBack(items: seq<Json>, tail: string)
    requires forall k | 0 <= k < |items| :: Writable(items[k])
    ensures ReadItems(WriteItems(items, tail)) == Some((items, tail)) && Stops(WriteItems(items, tail))
    decreases items
  {
    if items == [] {
      assert ("]" + tail)[1..] == tail;
    } else {
      var more := WriteItems(items[1..], tail);
      ItemsReadBack(items[1..], tail);
      ReadsBack(items[0], more);
      hide ReadValue, Write;
      assert ("," + Write(items[0], more))[1..] == Write(items[0], more);
      assert items == [items[0]] + items[1..];
    }
  }

  lemma {:induction false} FieldReadsBack(field: Field, tail: string)
    requires Writable(field.value) && Stops(tail)
    ensures ReadField(WriteField(field, tail)) == Some((field, tail))
    decreases field
  {
    var more := ":" + Write(field.value, tail);
    CharsReadBack(field.key, more);
    ReadsBack(field.value, tail);
    assert WriteString(field.key, more)[1..] == WriteChars(field.key, more);
    assert more[1..] == Write(field.value, tail);
  }

  lemma {:induction false} FieldsReadBack(fields: seq<Field>, tail: string)
    requires forall k | 0 <= k < |fields| :: Writable(fields[k].value)
    ensures ReadFields(WriteFields(fields, tail)) == Some((fields, tail)) && Stops(WriteFields(fields, tail))
    decreases fields
  {
    if fields == [] {
      assert ("}" + tail)[1..] == tail;
    } else {
      var more := WriteFields(fields[1..], tail);
      FieldsReadBack(fields[1..], tail);
      FieldReadsBack(fields[0], more);
      hide ReadField, WriteField;
      assert ("," + WriteField(fields[0], more))[1..] == WriteField(fields[0], more);
      assert fields == [fields[0]] + fields[1..];
    }
  }

  /** Every writable value survives its text. */
  lemma DumpParses(j: Json)
    requires Writable(j)
    ensures Parse(Dump(j)) == Some(j)
  {
    ReadsBack(j, "");
  }

  // ----- What is read can be written -----

  lemma NumberIsWritable(token: string)
    requires ReadNumber(token).Some?
    ensures Writable(ReadNumber(token).value)
  {
    if !FloatText(token) {
      var j := ReadNumber(token).value;
      assert IntText(j.number) == token;
      assert j.number < 0 ==> token[1..] == Digits(-j.number);
    }
  }

  /** The reader returns writable values only: a repeated key is refused. */
  lemma {:induction false} ReadIsWritable(s: string)
    requires ReadValue(s).Some?
    ensures Writable(ReadValue(s).value.0)
    decreases |s|, 0
  {
    if s[0] == '[' && !(|s| > 1 && s[1] == ']') {
      ReadIsWritable(s[1..]);
      ItemsAreWritable(ReadValue(s[1..]).value.1);
    } else if s[0] == '{' && !(|s| > 1 && s[1] == '}') {
      FieldIsWritable(s[1..]);
      FieldsAreWritable(ReadField(s[1..]).value.1);
    } else if ReadNumber(s[..NumberEnd(s)]).Some? {
      NumberIsWritable(s[..NumberEnd(s)]);
    }
  }

  lemma {:induction false} ItemsAreWritable(s: string)
    requires ReadItems(s).Some?
    ensures forall k | 0 <= k < |ReadItems(s).value.0| :: Writable(ReadItems(s).value.0[k])
    decreases |s|, 1
  {
    if s[0] == ',' {
      ReadIsWritable(s[1..]);
      ItemsAreWritable(ReadValue(s[1..]).value.1);
    }
  }

  lemma {:induction false} FieldIsWritable(s: string)
    requires ReadField(s).Some?
    ensures Writable(ReadField(s).value.0.value)
    decreases |s|, 1
  {
    ReadIsWritable(ReadChars(s[1..]).value.1[1..]);
  }

  lemma {:induction false} FieldsAreWritable(s: string)
    requires ReadFields(s).Some?
    ensures forall k | 0 <= k < |ReadFields(s).value.0| :: Writable(ReadFields(s).value.0[k].value)
    decreases |s|, 1
  {
    if s[0] == ',' {
      FieldIsWritable(s[1..]);
      FieldsAreWritable(ReadField(s[1..]).value.1);
    }
  }

  // ----- No control character -----

  predicate Visible(s: string) {
    forall k | 0 <= k < |s| :: s[k] >= ' '
  }

  lemma VisibleConcat(a: string, b: string)
    ensures Visible(a + b) <==> Visible(a) && Visible(b)
  {
    assert forall k | 0 <= k < |a| :: (a + b)[k] == a[k];
    assert forall k | 0 <= k < |b| :: (a + b)[|a| + k] == b[k];
  }

  lemma EscapeIsVisible(c: char)
    ensures Visible(Escape(c))
  {
  }

  lemma {:induction false} CharsAreVisible(s: string, tail: string)
    requires Visible(tail)
    ensures Visible(WriteChars(s, tail))
  {
    if s != "" {
      CharsAreVisible(s[1..], tail);
      EscapeIsVisible(s[0]);
      VisibleConcat(Escape(s[0]), WriteChars(s[1..], tail));
    }
  }

  /** The text holds no control character, a line end among them. */
  lemma {:induction false} TextIsVisible(j: Json, tail: string)
    requires Writable(j) && Visible(tail)
    ensures Visible(Write(j, tail))
    decreases j
  {
    hide Visible;
    match j
    case Null => ShortIsVisible("null", tail);
    case Bool(flag) => ShortIsVisible(if flag then "true" else "false", tail);
    case Int(number) =>
      IntIsNoFloat(number);
      ShortIsVisible(IntText(number), tail);
    case Dec(numeral) =>
      FloatChars(numeral);
      ShortIsVisible(numeral, tail);
    case Str(text) =>
      CharsAreVisible(text, tail);
      ShortIsVisible("\"", WriteChars(text, tail));
    case Arr(items) =>
      if items == [] {
        ShortIsVisible("[]", tail);
      } else {
        ItemsAreVisible(items[1..], tail);
        TextIsVisible(items[0], WriteItems(items[1..], tail));
        ShortIsVisible("[", Write(items[0], WriteItems(items[1..], tail)));
      }
    case Obj(fields) =>
      if fields == [] {
        ShortIsVisible("{}", tail);
      } else {
        FieldsAreVisible(fields[1..], tail);
        FieldIsVisible(fields[0], WriteFields(fields[1..], tail));
        ShortIsVisible("{", WriteField(fields[0], WriteFields(fields[1..], tail)));
      }
  }

  lemma ShortIsVisible(a: string, tail: string)
    requires Visible(tail) && forall k | 0 <= k < |a| :: a[k] >= ' '
    ensures Visible(a + tail)
  {
    VisibleConcat(a, tail);
  }

  lemma {:induction false} ItemsAreVisible(items: seq<Json>, tail: string)
    requires Visible(tail) && forall k | 0 <= k < |items| :: Writable(items[k])
    ensures Visible(WriteItems(items, tail))
    decreases items
  {
    if items != [] {
      ItemsAreVisible(items[1..], tail);
      TextIsVisible(items[0], WriteItems(items[1..], tail));
    }
  }

  lemma {:induction false} FieldIsVisible(field: Field, tail: string)
    requires Writable(field.value) && Visible(tail)
    ensures Visible(WriteField(field, tail))
    decreases field
  {
    TextIsVisible(field.value, tail);
    CharsAreVisible(field.key, ":" + Write(field.value, tail));
  }

  lemma {:induction false} FieldsAreVisible(fields: seq<Field>, tail: string)
    requires Visible(tail) && forall k | 0 <= k < |fields| :: Writable(fields[k].value)
    ensures Visible(WriteFields(fields, tail))
    decreases fields
  {
    if fields != [] {
      FieldsAreVisible(fields[1..], tail);
      FieldIsVisible(fields[0], WriteFields(fields[1..], tail));
    }
  }
}
