/** JSON-lines printing and parsing (src/jsonl.cc). The grammar is given by functions from a text to a
    value and the rest of the text; the parsers, which move an offset, are proved against them. */
module Jsonl {
  import opened VdsTypes
  import opened VdsConfig

  const BACKSPACE: char := 8 as char
  const FORM_FEED: char := 12 as char
  const VERTICAL_TAB: char := 11 as char
  const U32_MAX: nat := 0xffff_ffff

  /** A parse: the value read and what follows it. */
  type Parsed<T> = Option<(T, string)>

  datatype Value = StringValue(text: string) | ArrayValue(numbers: seq<nat>)
  datatype Field = Field(key: string, value: Value)

  predicate IsSpace(c: char) {
    c == ' ' || c == '\t' || c == '\n' || c == VERTICAL_TAB || c == FORM_FEED || c == '\r'
  }

  function SkipSpaces(t: string): (r: string)
    ensures |r| <= |t|
    ensures r != [] ==> !IsSpace(r[0])
  {
    if t != [] && IsSpace(t[0]) then SkipSpaces(t[1..]) else t
  }

  lemma NoSpaceToSkip(c: char, rest: string)
    requires !IsSpace(c)
    ensures SkipSpaces([c] + rest) == [c] + rest && ([c] + rest)[1..] == rest
  {
  }

  function Expect(t: string, c: char): (r: Option<string>)
    ensures r.Some? ==> |r.value| < |t|
  {
    var u := SkipSpaces(t);
    if u != [] && u[0] == c then Some(u[1..]) else None
  }

  // ---------------------------------------------------------------------------------------------
  // Strings
  // ---------------------------------------------------------------------------------------------

  /** What an escape letter stands for. */
  function Unescape(c: char): Option<char> {
    if c == '"' || c == '\\' || c == '/' then Some(c)
    else if c == 'b' then Some(BACKSPACE)
    else if c == 'f' then Some(FORM_FEED)
    else if c == 'n' then Some('\n')
    else if c == 'r' then Some('\r')
    else if c == 't' then Some('\t')
    else None
  }

  function HexDigit(c: char): Option<nat> {
    if '0' <= c <= '9' then Some((c as int) - ('0' as int))
    else if 'a' <= c <= 'f' then Some((c as int) - ('a' as int) + 10)
    else if 'A' <= c <= 'F' then Some((c as int) - ('A' as int) + 10)
    else None
  }

  /** The character of four hex digits, if it is ASCII. */
  function UnicodeEscape(t: string): Option<char>
    requires |t| == 4
  {
    var (a, b, c, d) := (HexDigit(t[0]), HexDigit(t[1]), HexDigit(t[2]), HexDigit(t[3]));
    if a.None? || b.None? || c.None? || d.None? then None
    else
      var code := a.value * 4096 + b.value * 256 + c.value * 16 + d.value;
      if code > 0x7f then None else Some(code as char)
  }

  /** The characters of a string up to its closing quote. */
  function Chars(t: string): (r: Parsed<string>)
    ensures r.Some? ==> |r.value.1| < |t|
  {
    if t == [] then None
    else if t[0] == '"' then Some(("", t[1..]))
    else if t[0] == '\\' then
      if |t| < 2 then None
      else if t[1] == 'u' then
        if |t| < 6 || UnicodeEscape(t[2..6]).None? then None
        else Prepend(UnicodeEscape(t[2..6]).value, Chars(t[6..]))
      else if Unescape(t[1]).None? then None
      else Prepend(Unescape(t[1]).value, Chars(t[2..]))
    else if t[0] < ' ' then None
    else Prepend(t[0], Chars(t[1..]))
  }

  function Prepend(c: char, r: Parsed<string>): Parsed<string> {
    match r
    case Some((v, rest)) => Some(([c] + v, rest))
    case None => None
  }

  function ParseString(t: string): (r: Parsed<string>)
    ensures r.Some? ==> |r.value.1| < |t|
  {
    var u := SkipSpaces(t);
    if u != [] && u[0] == '"' then Chars(u[1..]) else None
  }

  function LowerHex(n: nat): char
    requires n < 16
  {
    "0123456789abcdef"[n]
  }

  function EscapeChar(c: char): string {
    if c == '"' then "\\\""
    else if c == '\\' then "\\\\"
    else if c == BACKSPACE then "\\b"
    else if c == FORM_FEED then "\\f"
    else if c == '\n' then "\\n"
    else if c == '\r' then "\\r"
    else if c == '\t' then "\\t"
    else if c < ' ' then "\\u00" + [LowerHex(c as int / 16), LowerHex(c as int % 16)]
    else [c]
  }

  function Escape(v: string): string {
    if v == [] then "" else Escape(v[..|v| - 1]) + EscapeChar(v[|v| - 1])
  }

  function PrintString(v: string): string {
    "\"" + Escape(v) + "\""
  }

  lemma HexUndone(n: nat)
    requires n < 16
    ensures HexDigit(LowerHex(n)) == Some(n)
  {
  }

  predicate HasLetter(c: char) {
    c == '"' || c == '\\' || c == BACKSPACE || c == FORM_FEED || c == '\n' || c == '\r' || c == '\t'
  }

  lemma ControlUndone(c: char, rest: string)
    requires c < ' ' && !HasLetter(c)
    ensures Chars(EscapeChar(c) + rest) == Prepend(c, Chars(rest))
  {
    var high, low := LowerHex(c as int / 16), LowerHex(c as int % 16);
    var t := EscapeChar(c) + rest;
    HexUndone(c as int / 16);
    HexUndone(c as int % 16);
    hide LowerHex;
    assert EscapeChar(c) == ['\\', 'u', '0', '0', high, low];
    assert t[0] == '\\' && t[1] == 'u' && t[2..6] == ['0', '0', high, low] && t[6..] == rest;
    assert HexDigit('0') == Some(0);
    assert UnicodeEscape(t[2..6]) == Some(c);
  }

  lemma LetterUndone(c: char, rest: string)
    requires HasLetter(c)
    ensures Chars(EscapeChar(c) + rest) == Prepend(c, Chars(rest))
  {
    var t := EscapeChar(c) + rest;
    assert |EscapeChar(c)| == 2 && EscapeChar(c)[0] == '\\' && EscapeChar(c)[1] != 'u';
    assert Unescape(EscapeChar(c)[1]) == Some(c);
    assert t[0] == EscapeChar(c)[0] && t[1] == EscapeChar(c)[1] && t[2..] == rest;
    hide EscapeChar, Unescape;
  }

  lemma PlainUndone(c: char, rest: string)
    requires c >= ' ' && !HasLetter(c)
    ensures Chars(EscapeChar(c) + rest) == Prepend(c, Chars(rest))
  {
    var t := EscapeChar(c) + rest;
    assert t == [c] + rest && t[1..] == rest;
  }

  /** Reading one escaped character gives that character and goes on behind it. */
  lemma CharUndone(c: char, rest: string)
    ensures Chars(EscapeChar(c) + rest) == Prepend(c, Chars(rest))
  {
    hide Chars, EscapeChar, HasLetter;
    if HasLetter(c) {
      LetterUndone(c, rest);
    } else if c < ' ' {
      ControlUndone(c, rest);
    } else {
      PlainUndone(c, rest);
    }
  }

  lemma EscapeFirst(v: string)
    requires v != []
    ensures Escape(v) == EscapeChar(v[0]) + Escape(v[1..])
  {
    hide Escape, EscapeChar;
    EscapeConcat([v[0]], v[1..]);
    assert [v[0]] + v[1..] == v;
    EscapeOne(v[0]);
  }

  lemma EscapeOne(c: char)
    ensures Escape([c]) == EscapeChar(c)
  {
    hide EscapeChar;
    assert [c][..0] == [];
    assert Escape([]) == "";
  }

  lemma {:induction false} EscapeConcat(a: string, b: string)
    ensures Escape(a + b) == Escape(a) + Escape(b)
    decreases |b|
  {
    hide EscapeChar;
    if b == [] {
      assert a + b == a;
    } else {
      EscapeConcat(a, b[..|b| - 1]);
      assert (a + b)[..|a + b| - 1] == a + b[..|b| - 1];
      var last := EscapeChar(b[|b| - 1]);
      assert (Escape(a) + Escape(b[..|b| - 1])) + last == Escape(a) + (Escape(b[..|b| - 1]) + last);
    }
  }

  /** Parsing undoes printing, for every string and whatever follows it. */
  lemma {:induction false} EscapeUndone(v: string, rest: string)
    ensures Chars(Escape(v) + "\"" + rest) == Some((v, rest))
    decreases |v|
  {
    hide EscapeChar, Chars;
    if v == [] {
      EndOfChars(rest);
    } else {
      EscapeFirst(v);
      EscapeUndone(v[1..], rest);
      assert Escape(v) + "\"" + rest == EscapeChar(v[0]) + (Escape(v[1..]) + "\"" + rest);
      CharUndone(v[0], Escape(v[1..]) + "\"" + rest);
      assert [v[0]] + v[1..] == v;
    }
  }

  lemma EndOfChars(rest: string)
    ensures Chars(Escape("") + "\"" + rest) == Some(("", rest))
  {
    assert Escape("") + "\"" + rest == "\"" + rest;
    assert ("\"" + rest)[1..] == rest;
  }

  lemma StringRoundTrip(v: string, rest: string)
    ensures ParseString(PrintString(v) + rest) == Some((v, rest))
  {
    hide Chars, Escape;
    var t := PrintString(v) + rest;
    assert t[0] == '"' && t[1..] == Escape(v) + "\"" + rest;
    assert SkipSpaces(t) == t;
    EscapeUndone(v, rest);
  }

  /** Printed strings hold no control characters, so never a line end. */
  lemma {:induction false} EscapedIsPlain(v: string)
    ensures forall i :: 0 <= i < |Escape(v)| ==> Escape(v)[i] >= ' '
  {
    if v != [] {
      EscapedIsPlain(v[..|v| - 1]);
      EscapedCharIsPlain(v[|v| - 1]);
      hide EscapeChar;
    }
  }

  lemma EscapedCharIsPlain(c: char)
    ensures forall i :: 0 <= i < |EscapeChar(c)| ==> EscapeChar(c)[i] >= ' '
  {
  }

  // ---------------------------------------------------------------------------------------------
  // Numbers and arrays
  // ---------------------------------------------------------------------------------------------

  function Digit(n: nat): char
    requires n < 10
  {
    "0123456789"[n]
  }

  function ToString(n: nat): (s: string)
    ensures IsDecimal(s)
  {
    if n < 10 then [Digit(n)] else ToString(n / 10) + [Digit(n % 10)]
  }

  lemma DigitIs(n: nat)
    requires n < 10
    ensures IsDigit(Digit(n)) && DigitValue(Digit(n)) == n
  {
  }

  lemma {:induction false} ToStringValue(n: nat)
    ensures DecimalValue(ToString(n)) == n
  {
    if n < 10 {
      assert ToString(n)[..0] == [];
      DigitIs(n);
    } else {
      ToStringValue(n / 10);
      DigitIs(n % 10);
      var front := ToString(n / 10);
      assert ToString(n) == front + [Digit(n % 10)];
      assert (front + [Digit(n % 10)])[..|front|] == front;
      hide Digit, ToString;
    }
  }

  function DigitCount(t: string): (n: nat)
    ensures n <= |t| && (forall i :: 0 <= i < n ==> IsDigit(t[i])) && (n < |t| ==> !IsDigit(t[n]))
  {
    if t != [] && IsDigit(t[0]) then 1 + DigitCount(t[1..]) else 0
  }

  function ParseUnsigned(t: string): (r: Parsed<nat>)
    ensures r.Some? ==> |r.value.1| < |t|
  {
    var u := SkipSpaces(t);
    var n := DigitCount(u);
    if n == 0 || DecimalValue(u[..n]) > U32_MAX then None else Some((DecimalValue(u[..n]), u[n..]))
  }

  /** The elements of an array that is not empty, up to its bracket. */
  function ParseElements(t: string): (r: Parsed<seq<nat>>)
    ensures r.Some? ==> |r.value.1| < |t|
    decreases |t|
  {
    match ParseUnsigned(t)
    case None => None
    case Some((v, after)) =>
      var u := SkipSpaces(after);
      if u == [] then None
      else if u[0] == ']' then Some(([v], u[1..]))
      else if u[0] != ',' then None
      else
        match ParseElements(u[1..])
        case None => None
        case Some((vs, rest)) => Some(([v] + vs, rest))
  }

  function ParseArray(t: string): (r: Parsed<seq<nat>>)
    ensures r.Some? ==> |r.value.1| < |t|
  {
    match Expect(t, '[')
    case None => None
    case Some(after) =>
      var u := SkipSpaces(after);
      if u != [] && u[0] == ']' then Some(([], u[1..])) else ParseElements(u)
  }

  function Join(vs: seq<nat>): string {
    if vs == [] then "" else if |vs| == 1 then ToString(vs[0]) else Join(vs[..|vs| - 1]) + "," + ToString(vs[|vs| - 1])
  }

  function PrintArray(vs: seq<nat>): string {
    "[" + Join(vs) + "]"
  }

  lemma {:induction false} JoinFirst(vs: seq<nat>)
    requires |vs| >= 2
    ensures Join(vs) == ToString(vs[0]) + "," + Join(vs[1..])
    decreases |vs|
  {
    hide ToString;
    if |vs| == 2 {
      assert vs[..1] == [vs[0]] && vs[1..] == [vs[1]];
    } else {
      var before, last := vs[..|vs| - 1], ToString(vs[|vs| - 1]);
      JoinFirst(before);
      assert before[1..] == vs[1..][..|vs| - 2];
      assert (ToString(vs[0]) + "," + Join(before[1..])) + "," + last
          == ToString(vs[0]) + "," + (Join(before[1..]) + "," + last);
    }
  }

  lemma {:induction false} DigitsCounted(digits: string, rest: string)
    requires (forall i :: 0 <= i < |digits| ==> IsDigit(digits[i])) && (rest != [] ==> !IsDigit(rest[0]))
    ensures DigitCount(digits + rest) == |digits|
  {
    if digits == [] {
      assert digits + rest == rest;
    } else {
      DigitsCounted(digits[1..], rest);
      assert (digits + rest)[1..] == digits[1..] + rest;
    }
  }

  /** A printed number parses back if a digit does not follow. */
  lemma UnsignedRoundTrip(n: nat, rest: string)
    requires n <= U32_MAX && (rest != [] ==> !IsDigit(rest[0]))
    ensures ParseUnsigned(ToString(n) + rest) == Some((n, rest))
  {
    hide ToString, DecimalValue, DigitCount;
    var t := ToString(n) + rest;
    assert IsDigit(t[0]) && SkipSpaces(t) == t;
    DigitsCounted(ToString(n), rest);
    ToStringValue(n);
    assert t[..|ToString(n)|] == ToString(n) && t[|ToString(n)|..] == rest;
  }

  ghost predicate Fit(vs: seq<nat>) {
    forall i :: 0 <= i < |vs| ==> vs[i] <= U32_MAX
  }

  lemma {:induction false} ElementsRoundTrip(vs: seq<nat>, rest: string)
    requires vs != [] && Fit(vs)
    ensures ParseElements(Join(vs) + "]" + rest) == Some((vs, rest))
    decreases |vs|
  {
    hide ToString, ParseUnsigned, Join;
    if |vs| == 1 {
      JoinOne(vs);
      var tail := "]" + rest;
      assert Join(vs) + "]" + rest == ToString(vs[0]) + tail;
      UnsignedRoundTrip(vs[0], tail);
      assert SkipSpaces(tail) == tail && tail[1..] == rest;
      assert [vs[0]] == vs;
    } else {
      JoinFirst(vs);
      var more := Join(vs[1..]) + "]" + rest;
      var tail := "," + more;
      assert Join(vs) + "]" + rest == ToString(vs[0]) + tail;
      UnsignedRoundTrip(vs[0], tail);
      assert SkipSpaces(tail) == tail && tail[1..] == more;
      ElementsRoundTrip(vs[1..], rest);
      assert [vs[0]] + vs[1..] == vs;
    }
  }

  lemma JoinOne(vs: seq<nat>)
    requires |vs| == 1
    ensures Join(vs) == ToString(vs[0])
  {
  }

  lemma {:induction false} JoinStartsWithDigit(vs: seq<nat>)
    requires vs != []
    ensures Join(vs) != [] && IsDigit(Join(vs)[0])
    decreases |vs|
  {
    hide ToString;
    if |vs| >= 2 {
      JoinFirst(vs);
    }
  }

  /** Every list of unsigned integers parses back from its printed form. */
  lemma ArrayRoundTrip(vs: seq<nat>, rest: string)
    requires Fit(vs)
    ensures ParseArray(PrintArray(vs) + rest) == Some((vs, rest))
  {
    hide ParseElements, Join;
    var t := PrintArray(vs) + rest;
    var after := Join(vs) + "]" + rest;
    assert t[0] == '[' && t[1..] == after && SkipSpaces(t) == t;
    if vs == [] {
      NothingJoined();
      assert after == "]" + rest && after[1..] == rest;
    } else {
      JoinStartsWithDigit(vs);
      assert SkipSpaces(after) == after;
      ElementsRoundTrip(vs, rest);
    }
  }

  lemma NothingJoined()
    ensures Join([]) == ""
  {
  }

  // ---------------------------------------------------------------------------------------------
  // Objects
  // ---------------------------------------------------------------------------------------------

  function ParseValue(t: string): (r: Parsed<Value>)
    ensures r.Some? ==> |r.value.1| < |t|
  {
    var u := SkipSpaces(t);
    if u == [] then None
    else if u[0] == '"' then
      match ParseString(u)
      case None => None
      case Some((v, rest)) => Some((StringValue(v), rest))
    else if u[0] == '[' then
      match ParseArray(u)
      case None => None
      case Some((vs, rest)) => Some((ArrayValue(vs), rest))
    else None
  }

  function ParseField(t: string): (r: Parsed<Field>)
    ensures r.Some? ==> |r.value.1| < |t|
  {
    match ParseString(t)
    case None => None
    case Some((key, after)) =>
      match Expect(after, ':')
      case None => None
      case Some(value) =>
        match ParseValue(value)
        case None => None
        case Some((v, rest)) => Some((Field(key, v), rest))
  }

  /** The fields of an object that is not empty, to the end of the text. */
  function ParseFields(t: string): Option<seq<Field>>
    decreases |t|
  {
    match ParseField(t)
    case None => None
    case Some((f, after)) =>
      var u := SkipSpaces(after);
      if u == [] then None
      else if u[0] == '}' then if SkipSpaces(u[1..]) == [] then Some([f]) else None
      else if u[0] != ',' then None
      else
        match ParseFields(u[1..])
        case None => None
        case Some(fs) => Some([f] + fs)
  }

  function ParseObject(t: string): Option<seq<Field>> {
    match Expect(t, '{')
    case None => None
    case Some(after) =>
      var u := SkipSpaces(after);
      if u != [] && u[0] == '}' then if SkipSpaces(u[1..]) == [] then Some([]) else None
      else ParseFields(u)
  }

  function PrintValue(v: Value): string {
    match v
    case StringValue(text) => PrintString(text)
    case ArrayValue(numbers) => PrintArray(numbers)
  }

  /** A key is printed as it is. */
  function PrintField(f: Field): string {
    "\"" + f.key + "\":" + PrintValue(f.value)
  }

  function PrintFields(fs: seq<Field>): string {
    if fs == [] then "" else if |fs| == 1 then PrintField(fs[0]) else PrintField(fs[0]) + "," + PrintFields(fs[1..])
  }

  function PrintObject(fs: seq<Field>): string {
    "{" + PrintFields(fs) + "}"
  }

  /** A key that needs no escapes. */
  ghost predicate PlainKey(key: string) {
    forall i :: 0 <= i < |key| ==> key[i] != '"' && key[i] != '\\' && key[i] >= ' '
  }

  lemma {:induction false} PlainKeyIsPrinted(key: string)
    requires PlainKey(key)
    ensures Escape(key) == key
    decreases |key|
  {
    if key != [] {
      PlainKeyIsPrinted(key[..|key| - 1]);
      assert EscapeChar(key[|key| - 1]) == [key[|key| - 1]];
      assert key == key[..|key| - 1] + [key[|key| - 1]];
    }
  }

  ghost predicate Printable(f: Field) {
    PlainKey(f.key) && (f.value.ArrayValue? ==> Fit(f.value.numbers))
  }

  lemma ValueRoundTrip(v: Value, rest: string)
    requires v.ArrayValue? ==> Fit(v.numbers)
    ensures ParseValue(PrintValue(v) + rest) == Some((v, rest))
  {
    hide ParseString, ParseArray, Escape, Join;
    var t := PrintValue(v) + rest;
    assert t[0] == (if v.StringValue? then '"' else '[') && SkipSpaces(t) == t;
    match v
    case StringValue(text) => StringRoundTrip(text, rest);
    case ArrayValue(numbers) => ArrayRoundTrip(numbers, rest);
  }

  lemma FieldRoundTrip(f: Field, rest: string)
    requires Printable(f)
    ensures ParseField(PrintField(f) + rest) == Some((f, rest))
  {
    hide ParseString, ParseValue, PrintValue, Escape;
    PlainKeyIsPrinted(f.key);
    var value := PrintValue(f.value) + rest;
    var after := ":" + value;
    assert PrintField(f) + rest == PrintString(f.key) + after;
    StringRoundTrip(f.key, after);
    assert SkipSpaces(after) == after && after[1..] == value;
    ValueRoundTrip(f.value, rest);
  }

  lemma LastField(f: Field)
    requires Printable(f)
    ensures ParseFields(PrintField(f) + "}") == Some([f])
  {
    hide ParseField, PrintField, Printable;
    FieldRoundTrip(f, "}");
    assert SkipSpaces("}") == "}" && "}"[1..] == "" && SkipSpaces("") == "";
  }

  lemma OneFieldMore(f: Field, more: string)
    requires Printable(f)
    ensures ParseFields(PrintField(f) + "," + more)
         == match ParseFields(more) { case None => None case Some(fs) => Some([f] + fs) }
  {
    hide ParseField, PrintField, Printable;
    var tail := "," + more;
    assert PrintField(f) + "," + more == PrintField(f) + tail;
    FieldRoundTrip(f, tail);
    NoSpaceToSkip(',', more);
    assert tail == [','] + more;
  }

  lemma {:induction false} FieldsRoundTrip(fs: seq<Field>)
    requires fs != [] && forall i :: 0 <= i < |fs| ==> Printable(fs[i])
    ensures ParseFields(PrintFields(fs) + "}") == Some(fs)
    decreases |fs|
  {
    hide ParseFields, PrintField, Printable;
    if |fs| == 1 {
      LastField(fs[0]);
      assert [fs[0]] == fs;
    } else {
      var more := PrintFields(fs[1..]) + "}";
      assert PrintFields(fs) + "}" == PrintField(fs[0]) + "," + more;
      OneFieldMore(fs[0], more);
      FieldsRoundTrip(fs[1..]);
      assert [fs[0]] + fs[1..] == fs;
    }
  }

  /** An object parses back from its printed form, whatever its strings and numbers, if its keys are plain. */
  lemma ObjectRoundTrip(fs: seq<Field>)
    requires forall i :: 0 <= i < |fs| ==> Printable(fs[i])
    ensures ParseObject(PrintObject(fs)) == Some(fs)
  {
    hide ParseFields, PrintFields, Printable, SkipSpaces;
    var t := PrintObject(fs);
    var after := PrintFields(fs) + "}";
    assert t[0] == '{' && t[1..] == after;
    NothingSkipped(t);
    if fs == [] {
      assert after == "}" by {
        NoFields();
      }
      assert after[1..] == "";
      NothingSkipped("}");
    } else {
      FieldsStartWithQuote(fs);
      NothingSkipped(after);
      FieldsRoundTrip(fs);
    }
    NothingSkipped("");
  }

  lemma NoFields()
    ensures PrintFields([]) == ""
  {
  }

  lemma NothingSkipped(t: string)
    requires t == "" || t[0] in {'{', '}', '"'}
    ensures SkipSpaces(t) == t
  {
  }

  lemma FieldsStartWithQuote(fs: seq<Field>)
    requires fs != []
    ensures PrintFields(fs) != [] && PrintFields(fs)[0] == '"'
  {
    hide PrintValue;
  }

  /** A parsed string is no longer than its text, and as long only where nothing was escaped. */
  lemma {:induction false} ParsedIsShorter(t: string)
    requires Chars(t).Some?
    ensures var (v, rest) := Chars(t).value;
            && |v| + 1 + |rest| <= |t|
            && (|v| + 1 + |rest| == |t| ==> PlainKey(v) && t == v + "\"" + rest)
    decreases |t|
  {
    hide UnicodeEscape, Unescape;
    if t[0] == '"' {
      assert t == "" + "\"" + t[1..];
    } else if t[0] == '\\' {
      ParsedIsShorter(if t[1] == 'u' then t[6..] else t[2..]);
    } else {
      ParsedIsShorter(t[1..]);
      var (v, rest) := Chars(t[1..]).value;
      if |v| + 1 + |rest| == |t[1..]| {
        assert t == [t[0]] + (v + "\"" + rest);
        assert [t[0]] + (v + "\"" + rest) == ([t[0]] + v) + "\"" + rest;
      }
    }
  }

  /** Keys are printed without escapes, so a key survives exactly when it needs none. */
  lemma KeySurvives(key: string, rest: string)
    ensures Chars(key + "\"" + rest) == Some((key, rest)) <==> PlainKey(key)
  {
    if PlainKey(key) {
      PlainKeyIsPrinted(key);
      EscapeUndone(key, rest);
    }
    if Chars(key + "\"" + rest) == Some((key, rest)) {
      ParsedIsShorter(key + "\"" + rest);
    }
  }

  /** What the field printers print: a string, a list of numbers, or a flag. */
  datatype Printed = Readable(value: Value) | Flag(on: bool)

  function PrintAny(p: Printed): string {
    match p
    case Readable(value) => PrintValue(value)
    case Flag(on) => if on then "true" else "false"
  }

  /** A printed value parses back exactly if it is not a flag: the parser knows strings and lists only. */
  lemma ParsesBackExactly(p: Printed, rest: string)
    requires p.Readable? && p.value.ArrayValue? ==> Fit(p.value.numbers)
    ensures ParseValue(PrintAny(p) + rest).Some? <==> p.Readable?
    ensures p.Readable? ==> ParseValue(PrintAny(p) + rest) == Some((p.value, rest))
  {
    hide PrintValue;
    match p
    case Readable(value) => ValueRoundTrip(value, rest);
    case Flag(on) => assert (PrintAny(p) + rest)[0] == (if on then 't' else 'f');
  }

  /** A quote ends the key that holds it. */
  lemma QuoteCutsKey()
    ensures Chars("\"" + "\"" + "") == Some(("", "\""))
  {
    var t := "\"" + "\"" + "";
    assert t == ['\"', '\"'];
    assert t[1..] == "\"";
  }

  // ---------------------------------------------------------------------------------------------
  // The printers and parsers
  // ---------------------------------------------------------------------------------------------

  method EscapeJsonlString(text: string) returns (escaped: string)
    ensures escaped == Escape(text)
  {
    hide EscapeChar;
    escaped := "";
    for i := 0 to |text|
      invariant escaped == Escape(text[..i])
    {
      assert text[..i + 1][..i] == text[..i];
      escaped := escaped + EscapeChar(text[i]);
    }
    assert text[..|text|] == text;
  }

  method JsonlUnsignedArray(values: seq<nat>) returns (text: string)
    ensures text == PrintArray(values)
  {
    hide ToString;
    text := "[";
    for i := 0 to |values|
      invariant text == "[" + Join(values[..i])
    {
      assert values[..i + 1][..i] == values[..i];
      if i > 0 {
        text := text + ",";
      }
      text := text + ToString(values[i]);
    }
    assert values[..|values|] == values;
    text := text + "]";
  }

  method SkipJsonlSpace(text: string, offset: nat) returns (next: nat)
    requires offset <= |text|
    ensures offset <= next <= |text| && text[next..] == SkipSpaces(text[offset..])
  {
    next := offset;
    while next < |text| && IsSpace(text[next])
      invariant offset <= next <= |text| && SkipSpaces(text[next..]) == SkipSpaces(text[offset..])
    {
      assert text[next..][1..] == text[next + 1..];
      next := next + 1;
    }
  }

  method RequireJsonlChar(text: string, offset: nat, expected: char) returns (next: Option<nat>)
    requires offset <= |text|
    ensures next.Some? <==> Expect(text[offset..], expected).Some?
    ensures next.Some? ==> offset < next.value <= |text| && text[next.value..] == Expect(text[offset..], expected).value
  {
    hide SkipSpaces;
    var at := SkipJsonlSpace(text, offset);
    if at >= |text| || text[at] != expected {
      return None;
    }
    assert text[at..][1..] == text[at + 1..];
    next := Some(at + 1);
  }

  /** One character of a string, escaped or not. */
  method ReadJsonlChar(text: string, offset: nat) returns (r: Option<(char, nat)>)
    requires offset < |text| && text[offset] != '"'
    ensures r.None? ==> Chars(text[offset..]).None?
    ensures r.Some? ==>
              && offset < r.value.1 <= |text|
              && Chars(text[offset..]) == Prepend(r.value.0, Chars(text[r.value.1..]))
  {
    hide UnicodeEscape, Unescape;
    ghost var t := text[offset..];
    var ch := text[offset];
    if ch != '\\' {
      assert t[1..] == text[offset + 1..];
      return if ch < ' ' then None else Some((ch, offset + 1));
    }
    if offset + 1 >= |text| {
      return None;
    }
    var escape := text[offset + 1];
    assert t[1] == escape;
    if escape == 'u' {
      if offset + 6 > |text| {
        return None;
      }
      assert t[2..6] == text[offset + 2..offset + 6] && t[6..] == text[offset + 6..];
      var code := UnicodeEscape(text[offset + 2..offset + 6]);
      return if code.None? then None else Some((code.value, offset + 6));
    }
    assert t[2..] == text[offset + 2..];
    var plain := Unescape(escape);
    r := if plain.None? then None else Some((plain.value, offset + 2));
  }

  method ParseJsonlString(text: string, offset: nat) returns (r: Option<(string, nat)>)
    requires offset <= |text|
    ensures r.Some? <==> ParseString(text[offset..]).Some?
    ensures r.Some? ==>
              && offset < r.value.1 <= |text|
              && ParseString(text[offset..]) == Some((r.value.0, text[r.value.1..]))
  {
    hide SkipSpaces, Chars;
    var at := SkipJsonlSpace(text, offset);
    if at >= |text| || text[at] != '"' {
      return None;
    }
    assert text[at..][1..] == text[at + 1..];
    at := at + 1;
    ghost var whole := Chars(text[at..]);
    var value := "";
    ContinueNothing(whole);
    while at < |text|
      invariant offset < at <= |text| && Continue(value, Chars(text[at..])) == whole
      decreases |text| - at
    {
      if text[at] == '"' {
        ClosingQuote(text, at, value);
        return Some((value, at + 1));
      }
      var ch := ReadJsonlChar(text, at);
      if ch.None? {
        return None;
      }
      ContinueOne(value, ch.value.0, Chars(text[ch.value.1..]));
      value := value + [ch.value.0];
      at := ch.value.1;
    }
    NoClosingQuote(text, at);
    r := None;
  }

  lemma ClosingQuote(text: string, at: nat, value: string)
    requires at < |text| && text[at] == '"'
    ensures Continue(value, Chars(text[at..])) == Some((value, text[at + 1..]))
  {
    assert text[at..][1..] == text[at + 1..] && value + "" == value;
  }

  lemma NoClosingQuote(text: string, at: nat)
    requires at == |text|
    ensures Chars(text[at..]) == None
  {
  }

  /** A parse with characters already read put in front. */
  function Continue(value: string, r: Parsed<string>): Parsed<string> {
    match r
    case Some((v, rest)) => Some((value + v, rest))
    case None => None
  }

  lemma ContinueNothing(r: Parsed<string>)
    ensures Continue("", r) == r
  {
    if r.Some? {
      assert "" + r.value.0 == r.value.0;
    }
  }

  lemma ContinueOne(value: string, c: char, r: Parsed<string>)
    ensures Continue(value, Prepend(c, r)) == Continue(value + [c], r)
  {
    if r.Some? {
      assert value + ([c] + r.value.0) == (value + [c]) + r.value.0;
    }
  }

  /** The value of a run of digits, if it fits; the search gives up where it no longer does. */
  method ReadDigits(digits: string) returns (value: Option<nat>)
    requires forall i :: 0 <= i < |digits| ==> IsDigit(digits[i])
    ensures value == if DecimalValue(digits) <= U32_MAX then Some(DecimalValue(digits)) else None
  {
    var n := 0;
    for i := 0 to |digits|
      invariant n == DecimalValue(digits[..i]) <= U32_MAX
    {
      assert digits[..i + 1][..i] == digits[..i];
      n := n * 10 + DigitValue(digits[i]);
      if n > U32_MAX {
        ValueGrows(digits, i + 1);
        return None;
      }
    }
    assert digits[..|digits|] == digits;
    value := Some(n);
  }

  method ParseJsonlUnsigned(text: string, offset: nat) returns (r: Option<(nat, nat)>)
    requires offset <= |text|
    ensures r.Some? <==> ParseUnsigned(text[offset..]).Some?
    ensures r.Some? ==>
              && offset < r.value.1 <= |text|
              && ParseUnsigned(text[offset..]) == Some((r.value.0, text[r.value.1..]))
  {
    hide SkipSpaces, DecimalValue;
    var start := SkipJsonlSpace(text, offset);
    var at := start;
    while at < |text| && IsDigit(text[at])
      invariant start <= at <= |text| && DigitCount(text[start..]) == at - start + DigitCount(text[at..])
    {
      assert text[at..][1..] == text[at + 1..];
      at := at + 1;
    }
    assert DigitCount(text[start..]) == at - start;
    hide DigitCount;
    if start == at {
      return None;
    }
    assert text[start..at] == text[start..][..at - start] && text[start..][at - start..] == text[at..];
    var value := ReadDigits(text[start..at]);
    r := if value.None? then None else Some((value.value, at));
  }

  method ParseJsonlUnsignedArray(text: string, offset: nat) returns (r: Option<(seq<nat>, nat)>)
    requires offset <= |text|
    ensures r.Some? <==> ParseArray(text[offset..]).Some?
    ensures r.Some? ==>
              && offset < r.value.1 <= |text|
              && ParseArray(text[offset..]) == Some((r.value.0, text[r.value.1..]))
  {
    hide SkipSpaces, ParseUnsigned;
    var open := RequireJsonlChar(text, offset, '[');
    if open.None? {
      return None;
    }
    var at := SkipJsonlSpace(text, open.value);
    if at < |text| && text[at] == ']' {
      assert text[at..][1..] == text[at + 1..];
      return Some(([], at + 1));
    }
    ghost var whole := ParseElements(text[at..]);
    var values := [];
    AppendNothing(whole);
    while true
      invariant offset < at <= |text| && AppendTo(values, ParseElements(text[at..])) == whole
      decreases |text| - at
    {
      var element := ParseJsonlUnsigned(text, at);
      if element.None? {
        return None;
      }
      ghost var before := at;
      at := SkipJsonlSpace(text, element.value.1);
      if at >= |text| || (text[at] != ']' && text[at] != ',') {
        return None;
      }
      assert text[at..][1..] == text[at + 1..];
      if text[at] == ']' {
        return Some((values + [element.value.0], at + 1));
      }
      AppendOne(values, element.value.0, ParseElements(text[at + 1..]));
      values := values + [element.value.0];
      at := at + 1;
    }
  }

  function AppendTo(values: seq<nat>, r: Parsed<seq<nat>>): Parsed<seq<nat>> {
    match r
    case Some((vs, rest)) => Some((values + vs, rest))
    case None => None
  }

  lemma AppendNothing(r: Parsed<seq<nat>>)
    ensures AppendTo([], r) == r
  {
    if r.Some? {
      assert [] + r.value.0 == r.value.0;
    }
  }

  lemma AppendOne(values: seq<nat>, v: nat, r: Parsed<seq<nat>>)
    ensures AppendTo(values, AppendTo([v], r)) == AppendTo(values + [v], r)
  {
    if r.Some? {
      assert values + ([v] + r.value.0) == (values + [v]) + r.value.0;
    }
  }

  method ParseJsonlValue(text: string, offset: nat) returns (r: Option<(Value, nat)>)
    requires offset <= |text|
    ensures r.Some? <==> ParseValue(text[offset..]).Some?
    ensures r.Some? ==>
              && offset < r.value.1 <= |text|
              && ParseValue(text[offset..]) == Some((r.value.0, text[r.value.1..]))
  {
    hide SkipSpaces, ParseString, ParseArray;
    var at := SkipJsonlSpace(text, offset);
    if at >= |text| {
      return None;
    }
    r := None;
    if text[at] == '"' {
      var s := ParseJsonlString(text, at);
      if s.Some? {
        r := Some((StringValue(s.value.0), s.value.1));
      }
    } else if text[at] == '[' {
      var a := ParseJsonlUnsignedArray(text, at);
      if a.Some? {
        r := Some((ArrayValue(a.value.0), a.value.1));
      }
    }
  }

  method ParseJsonlField(text: string, offset: nat) returns (r: Option<(Field, nat)>)
    requires offset <= |text|
    ensures r.Some? <==> ParseField(text[offset..]).Some?
    ensures r.Some? ==>
              && offset < r.value.1 <= |text|
              && ParseField(text[offset..]) == Some((r.value.0, text[r.value.1..]))
  {
    hide Expect, ParseString, ParseValue;
    r := None;
    var key := ParseJsonlString(text, offset);
    if key.None? {
      return;
    }
    var colon := RequireJsonlChar(text, key.value.1, ':');
    if colon.None? {
      return;
    }
    var value := ParseJsonlValue(text, colon.value);
    if value.Some? {
      r := Some((Field(key.value.0, value.value.0), value.value.1));
    }
  }

  method ParseJsonlObject(text: string) returns (r: Option<seq<Field>>)
    ensures r == ParseObject(text)
  {
    hide SkipSpaces, ParseField;
    assert text[0..] == text;
    var open := RequireJsonlChar(text, 0, '{');
    if open.None? {
      return None;
    }
    var at := SkipJsonlSpace(text, open.value);
    if at < |text| && text[at] == '}' {
      assert text[at..][1..] == text[at + 1..];
      var end := SkipJsonlSpace(text, at + 1);
      return if end == |text| then Some([]) else None;
    }
    ghost var whole := ParseFields(text[at..]);
    var fields := [];
    WithNothing(whole);
    while true
      invariant 0 <= at <= |text| && With(fields, ParseFields(text[at..])) == whole
      decreases |text| - at
    {
      var field := ParseJsonlField(text, at);
      if field.None? {
        return None;
      }
      at := SkipJsonlSpace(text, field.value.1);
      if at >= |text| {
        return None;
      }
      assert text[at..][1..] == text[at + 1..];
      if text[at] == '}' {
        var end := SkipJsonlSpace(text, at + 1);
        return if end == |text| then Some(fields + [field.value.0]) else None;
      }
      if text[at] != ',' {
        return None;
      }
      WithOne(fields, field.value.0, ParseFields(text[at + 1..]));
      fields := fields + [field.value.0];
      at := at + 1;
    }
  }

  function With(fields: seq<Field>, r: Option<seq<Field>>): Option<seq<Field>> {
    match r
    case Some(fs) => Some(fields + fs)
    case None => None
  }

  lemma WithNothing(r: Option<seq<Field>>)
    ensures With([], r) == r
  {
    if r.Some? {
      assert [] + r.value == r.value;
    }
  }

  lemma WithOne(fields: seq<Field>, f: Field, r: Option<seq<Field>>)
    ensures With(fields, With([f], r)) == With(fields + [f], r)
  {
    if r.Some? {
      assert fields + ([f] + r.value) == (fields + [f]) + r.value;
    }
  }

  // ---------------------------------------------------------------------------------------------
  // Looking fields up
  // ---------------------------------------------------------------------------------------------

  /** The value of a key that occurs; `Err` if it occurs twice. */
  function FindField(fs: seq<Field>, key: string): Result<Option<Value>> {
    if fs == [] then Ok(None)
    else
      match FindField(fs[..|fs| - 1], key)
      case Err => Err
      case Ok(found) =>
        var last := fs[|fs| - 1];
        if last.key != key then Ok(found) else if found.Some? then Err else Ok(Some(last.value))
  }

  function RequireString(fs: seq<Field>, key: string): Option<string> {
    match FindField(fs, key)
    case Ok(Some(StringValue(text))) => Some(text)
    case _ => None
  }

  function RequireArray(fs: seq<Field>, key: string): Option<seq<nat>> {
    match FindField(fs, key)
    case Ok(Some(ArrayValue(numbers))) => Some(numbers)
    case _ => None
  }

  /** No field but the expected ones. */
  predicate KnownFields(fs: seq<Field>, expected: seq<string>) {
    forall i :: 0 <= i < |fs| ==> fs[i].key in expected
  }
}
