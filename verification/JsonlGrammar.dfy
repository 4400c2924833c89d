/** The language that the JSON-lines parser (src/jsonl.cc) accepts, written down as the texts there are,
    and the proof that the parser accepts these and no others, with the meaning they have. */
module JsonlGrammar {
  import opened VdsTypes
  import opened VdsConfig
  import opened Jsonl

  /** Nothing but white space. */
  ghost predicate Blank(b: string) {
    forall i :: 0 <= i < |b| ==> b[i] == ' ' || 9 <= b[i] as int <= 13
  }

  lemma SpaceIsBlank(c: char)
    ensures IsSpace(c) <==> c == ' ' || 9 <= c as int <= 13
  {
    if 9 <= c as int <= 13 {
      assert c as int in {9, 10, 11, 12, 13};
      assert c == (c as int) as char;
    }
  }

  lemma {:induction false} SkipSplits(t: string) returns (b: string)
    ensures Blank(b) && t == b + SkipSpaces(t)
  {
    b := "";
    if t != [] && IsSpace(t[0]) {
      SpaceIsBlank(t[0]);
      var more := SkipSplits(t[1..]);
      b := [t[0]] + more;
      assert t == [t[0]] + t[1..];
    }
  }

  lemma {:induction false} SkipsBlank(b: string, rest: string)
    requires Blank(b) && (rest != [] ==> !IsSpace(rest[0]))
    ensures SkipSpaces(b + rest) == rest
  {
    if b == [] {
      assert b + rest == rest;
    } else {
      SpaceIsBlank(b[0]);
      SkipsBlank(b[1..], rest);
      assert (b + rest)[1..] == b[1..] + rest;
    }
  }

  // ---------------------------------------------------------------------------------------------
  // Strings
  // ---------------------------------------------------------------------------------------------

  /** What stands for one character of a string: itself, a letter behind a backslash, or four hex digits. */
  datatype Piece = Plain(c: char) | Letter(letter: char) | Code(digits: seq<nat>, upper: seq<bool>)

  ghost predicate GoodPiece(p: Piece) {
    match p
    case Plain(c) => c >= ' ' && c != '"' && c != '\\'
    case Letter(letter) => letter in {'"', '\\', '/', 'b', 'f', 'n', 'r', 't'}
    case Code(digits, upper) =>
      |digits| == 4 && |upper| == 4 && (forall i :: 0 <= i < 4 ==> digits[i] < 16) && CodeValue(digits) < 128
  }

  function CodeValue(digits: seq<nat>): nat {
    if |digits| == 4 then digits[0] * 4096 + digits[1] * 256 + digits[2] * 16 + digits[3] else 0
  }

  function HexAs(digit: nat, upper: bool): char {
    if digit >= 16 then '?' else if upper then "0123456789ABCDEF"[digit] else "0123456789abcdef"[digit]
  }

  function PieceText(p: Piece): string {
    match p
    case Plain(c) => [c]
    case Letter(letter) => ['\\', letter]
    case Code(digits, upper) =>
      if |digits| == 4 && |upper| == 4 then
        ['\\', 'u', HexAs(digits[0], upper[0]), HexAs(digits[1], upper[1]), HexAs(digits[2], upper[2]), HexAs(digits[3], upper[3])]
      else ""
  }

  function PieceMeans(p: Piece): char {
    match p
    case Plain(c) => c
    case Letter(letter) =>
      (match letter
       case 'b' => 8 as char
       case 'f' => 12 as char
       case 'n' => 10 as char
       case 'r' => 13 as char
       case 't' => 9 as char
       case _ => letter)
    case Code(digits, _) => if CodeValue(digits) < 128 then CodeValue(digits) as char else '?'
  }

  ghost predicate GoodPieces(ps: seq<Piece>) {
    forall i :: 0 <= i < |ps| ==> GoodPiece(ps[i])
  }

  function PiecesText(ps: seq<Piece>): string {
    if ps == [] then "" else PieceText(ps[0]) + PiecesText(ps[1..])
  }

  function PiecesMean(ps: seq<Piece>): string {
    if ps == [] then "" else [PieceMeans(ps[0])] + PiecesMean(ps[1..])
  }

  lemma HexRead(c: char)
    ensures HexDigit(c).Some? <==> exists digit, upper :: digit < 16 && HexAs(digit, upper) == c
    ensures forall digit: nat, upper: bool {:trigger HexAs(digit, upper)} ::
              digit < 16 && HexAs(digit, upper) == c ==> HexDigit(c) == Some(digit)
  {
    if HexDigit(c).Some? {
      var d := HexDigit(c).value;
      var up := 'A' <= c <= 'F';
      assert HexAs(d, up) == c;
    }
  }

  lemma LetterRead(letter: char)
    ensures Unescape(letter).Some? <==> GoodPiece(Letter(letter))
    ensures Unescape(letter).Some? ==> Unescape(letter).value == PieceMeans(Letter(letter))
  {
  }

  lemma CodeRead(digits: seq<nat>, upper: seq<bool>, t: string)
    requires |digits| == 4 && |upper| == 4 && |t| == 4
    requires forall i :: 0 <= i < 4 ==> digits[i] < 16 && t[i] == HexAs(digits[i], upper[i])
    ensures UnicodeEscape(t) == if CodeValue(digits) < 128 then Some(CodeValue(digits) as char) else None
  {
    hide HexDigit, HexAs;
    HexRead(t[0]);
    HexRead(t[1]);
    HexRead(t[2]);
    HexRead(t[3]);
    assert HexDigit(t[0]) == Some(digits[0]) && HexDigit(t[1]) == Some(digits[1]);
    assert HexDigit(t[2]) == Some(digits[2]) && HexDigit(t[3]) == Some(digits[3]);
  }

  lemma PieceAccepted(p: Piece, rest: string)
    requires GoodPiece(p)
    ensures Chars(PieceText(p) + rest) == Prepend(PieceMeans(p), Chars(rest))
  {
    hide UnicodeEscape, Unescape, HexAs;
    var t := PieceText(p) + rest;
    match p
    case Plain(c) => assert t[1..] == rest;
    case Letter(letter) =>
      LetterRead(letter);
      assert t[0] == '\\' && t[1] == letter && t[2..] == rest;
    case Code(digits, upper) =>
      assert t[0] == '\\' && t[1] == 'u' && |t| >= 6 && t[6..] == rest;
      CodeRead(digits, upper, t[2..6]);
  }

  /** Every spelling is read as what it means, */
  lemma {:induction false} PiecesAccepted(ps: seq<Piece>, rest: string)
    requires GoodPieces(ps)
    ensures Chars(PiecesText(ps) + "\"" + rest) == Some((PiecesMean(ps), rest))
    decreases |ps|
  {
    hide PieceText, Chars, PieceMeans, GoodPiece;
    if ps == [] {
      assert PiecesText(ps) + "\"" + rest == "\"" + rest;
      QuoteEnds(rest);
    } else {
      var more := PiecesText(ps[1..]) + "\"" + rest;
      assert PiecesText(ps) + "\"" + rest == PieceText(ps[0]) + more;
      PieceAccepted(ps[0], more);
      PiecesAccepted(ps[1..], rest);
    }
  }

  lemma QuoteEnds(rest: string)
    ensures Chars("\"" + rest) == Some(("", rest))
  {
    assert ("\"" + rest)[1..] == rest;
  }

  lemma CodeFound(t: string) returns (p: Piece)
    requires |t| == 4 && UnicodeEscape(t).Some?
    ensures p.Code? && GoodPiece(p) && PieceText(p) == ['\\', 'u'] + t && PieceMeans(p) == UnicodeEscape(t).value
  {
    hide HexDigit, HexAs;
    HexRead(t[0]);
    HexRead(t[1]);
    HexRead(t[2]);
    HexRead(t[3]);
    var a: nat, ua: bool :| a < 16 && HexAs(a, ua) == t[0];
    var b: nat, ub: bool :| b < 16 && HexAs(b, ub) == t[1];
    var c: nat, uc: bool :| c < 16 && HexAs(c, uc) == t[2];
    var d: nat, ud: bool :| d < 16 && HexAs(d, ud) == t[3];
    p := Code([a, b, c, d], [ua, ub, uc, ud]);
    assert t == [t[0], t[1], t[2], t[3]];
  }

  /** and whatever is read was spelt so. */
  lemma {:induction false} PiecesFound(t: string) returns (ps: seq<Piece>)
    requires Chars(t).Some?
    ensures GoodPieces(ps) && t == PiecesText(ps) + "\"" + Chars(t).value.1 && PiecesMean(ps) == Chars(t).value.0
    decreases |t|
  {
    hide UnicodeEscape, Unescape, HexAs, PieceText, PieceMeans, GoodPiece;
    if t[0] == '"' {
      ps := [];
      assert t == "" + "\"" + t[1..];
    } else {
      var p, n := FirstPiece(t);
      ps := PiecesFound(t[n..]);
      assert t == PieceText(p) + t[n..];
      ps := [p] + ps;
    }
  }

  lemma FirstPiece(t: string) returns (p: Piece, n: nat)
    requires Chars(t).Some? && t[0] != '"'
    ensures 0 < n <= |t| && GoodPiece(p) && PieceText(p) == t[..n] && Chars(t) == Prepend(PieceMeans(p), Chars(t[n..]))
  {
    hide UnicodeEscape, Unescape, HexAs;
    if t[0] != '\\' {
      p, n := Plain(t[0]), 1;
    } else if t[1] != 'u' {
      LetterRead(t[1]);
      p, n := Letter(t[1]), 2;
    } else {
      p := CodeFound(t[2..6]);
      n := 6;
      assert t[..6] == ['\\', 'u'] + t[2..6];
    }
  }

  // ---------------------------------------------------------------------------------------------
  // Values
  // ---------------------------------------------------------------------------------------------

  /** A number with the white space around it. */
  datatype Item = Item(before: string, digits: string, after: string)

  datatype Spelling = Quoted(pieces: seq<Piece>) | Listed(items: seq<Item>, blank: string)

  ghost predicate GoodItem(i: Item) {
    Blank(i.before) && Blank(i.after) && IsDecimal(i.digits) && DecimalValue(i.digits) <= 4294967295
  }

  ghost predicate GoodItems(items: seq<Item>) {
    forall i :: 0 <= i < |items| ==> GoodItem(items[i])
  }

  ghost predicate GoodSpelling(v: Spelling) {
    match v
    case Quoted(pieces) => GoodPieces(pieces)
    case Listed(items, blank) => GoodItems(items) && Blank(blank)
  }

  function ItemText(i: Item): string {
    i.before + i.digits + i.after
  }

  function ItemsText(items: seq<Item>): string {
    if items == [] then "" else if |items| == 1 then ItemText(items[0]) else ItemText(items[0]) + "," + ItemsText(items[1..])
  }

  ghost function ItemsMean(items: seq<Item>): seq<nat>
    requires GoodItems(items)
  {
    if items == [] then [] else [DecimalValue(items[0].digits)] + ItemsMean(items[1..])
  }

  function SpellingText(v: Spelling): string {
    match v
    case Quoted(pieces) => "\"" + PiecesText(pieces) + "\""
    case Listed(items, blank) => "[" + (if items == [] then blank else ItemsText(items)) + "]"
  }

  ghost function SpellingMeans(v: Spelling): Value
    requires GoodSpelling(v)
  {
    match v
    case Quoted(pieces) => StringValue(PiecesMean(pieces))
    case Listed(items, _) => ArrayValue(ItemsMean(items))
  }

  lemma NumberAccepted(i: Item, rest: string)
    requires GoodItem(i) && (rest != [] ==> !IsDigit(rest[0]))
    ensures ParseUnsigned(i.before + i.digits + rest) == Some((DecimalValue(i.digits), rest))
  {
    hide DecimalValue, DigitCount;
    var u := i.digits + rest;
    assert i.before + i.digits + rest == i.before + u;
    assert !IsSpace(u[0]);
    SkipsBlank(i.before, u);
    DigitsCounted(i.digits, rest);
    assert u[..|i.digits|] == i.digits && u[|i.digits|..] == rest;
  }

  lemma BlankThen(b: string, c: char, rest: string)
    requires Blank(b) && (c == ',' || c == ']' || c == '}' || c == ':')
    ensures SkipSpaces(b + [c] + rest) == [c] + rest
    ensures !IsDigit((b + [c] + rest)[0])
  {
    assert b + [c] + rest == b + ([c] + rest);
    SkipsBlank(b, [c] + rest);
    if b != [] {
      assert b[0] == ' ' || 9 <= b[0] as int <= 13;
    }
  }

  lemma {:induction false} ItemsAccepted(items: seq<Item>, rest: string)
    requires items != [] && GoodItems(items)
    ensures ParseElements(ItemsText(items) + "]" + rest) == Some((ItemsMean(items), rest))
    decreases |items|
  {
    hide ParseUnsigned, SkipSpaces, Blank, DecimalValue;
    var i := items[0];
    if |items| == 1 {
      var tail := i.after + "]" + rest;
      assert ItemsText(items) + "]" + rest == i.before + i.digits + tail;
      BlankThen(i.after, ']', rest);
      NumberAccepted(i, tail);
      assert ([']'] + rest)[1..] == rest;
      assert ItemsMean(items[1..]) == [];
      assert ItemsMean(items) == [DecimalValue(i.digits)];
      assert tail == i.after + [']'] + rest;
    } else {
      var more := ItemsText(items[1..]) + "]" + rest;
      var tail := i.after + "," + more;
      assert ItemsText(items) + "]" + rest == i.before + i.digits + tail;
      BlankThen(i.after, ',', more);
      NumberAccepted(i, tail);
      assert ([','] + more)[1..] == more;
      ItemsAccepted(items[1..], rest);
    }
  }

  lemma NumberFound(t: string) returns (before: string, digits: string)
    requires ParseUnsigned(t).Some?
    ensures Blank(before) && IsDecimal(digits) && DecimalValue(digits) <= 4294967295
    ensures t == before + digits + ParseUnsigned(t).value.1 && DecimalValue(digits) == ParseUnsigned(t).value.0
  {
    before := SkipSplits(t);
    var u := SkipSpaces(t);
    var n := DigitCount(u);
    digits := u[..n];
    assert u == u[..n] + u[n..];
    assert before + u == before + digits + u[n..];
  }

  lemma {:induction false} ItemsFound(t: string) returns (items: seq<Item>)
    requires ParseElements(t).Some?
    ensures items != [] && GoodItems(items)
    ensures t == ItemsText(items) + "]" + ParseElements(t).value.1 && ItemsMean(items) == ParseElements(t).value.0
    decreases |t|
  {
    hide ParseUnsigned, SkipSpaces, Blank, DecimalValue;
    var before, digits := NumberFound(t);
    var left := ParseUnsigned(t).value.1;
    var after := SkipSplits(left);
    var u := SkipSpaces(left);
    var i := Item(before, digits, after);
    assert u == [u[0]] + u[1..];
    if u[0] == ']' {
      items := [i];
      assert ItemsMean(items[1..]) == [];
      assert t == ItemsText(items) + "]" + u[1..];
    } else {
      var more := ItemsFound(u[1..]);
      items := [i] + more;
      assert items[1..] == more;
      assert t == ItemText(i) + "," + u[1..];
    }
  }

  lemma StringAccepted(before: string, ps: seq<Piece>, rest: string)
    requires Blank(before) && GoodPieces(ps)
    ensures ParseString(before + "\"" + PiecesText(ps) + "\"" + rest) == Some((PiecesMean(ps), rest))
  {
    hide Chars, GoodPieces, PiecesText;
    var u := "\"" + (PiecesText(ps) + "\"" + rest);
    assert before + "\"" + PiecesText(ps) + "\"" + rest == before + u;
    SkipsBlank(before, u);
    assert u[1..] == PiecesText(ps) + "\"" + rest;
    PiecesAccepted(ps, rest);
  }

  lemma StringFound(t: string) returns (before: string, ps: seq<Piece>)
    requires ParseString(t).Some?
    ensures Blank(before) && GoodPieces(ps) && PiecesMean(ps) == ParseString(t).value.0
    ensures t == before + "\"" + PiecesText(ps) + "\"" + ParseString(t).value.1
  {
    hide Chars, GoodPieces, PiecesText, PiecesMean;
    before := SkipSplits(t);
    var u := SkipSpaces(t);
    ps := PiecesFound(u[1..]);
    assert u == "\"" + u[1..];
  }

  /** In front of what is looked for stands only what is skipped. */
  lemma ExpectAccepted(before: string, c: char, rest: string)
    requires Blank(before) && !IsSpace(c)
    ensures Expect(before + [c] + rest, c) == Some(rest)
  {
    assert before + [c] + rest == before + ([c] + rest);
    SkipsBlank(before, [c] + rest);
    assert ([c] + rest)[1..] == rest;
  }

  lemma ExpectFound(t: string, c: char) returns (before: string)
    requires Expect(t, c).Some?
    ensures Blank(before) && t == before + [c] + Expect(t, c).value
  {
    before := SkipSplits(t);
    var u := SkipSpaces(t);
    assert u == [c] + u[1..];
  }

  lemma ArrayAccepted(items: seq<Item>, blank: string, rest: string)
    requires GoodItems(items) && Blank(blank)
    ensures ParseArray("[" + (if items == [] then blank else ItemsText(items)) + "]" + rest) == Some((ItemsMean(items), rest))
  {
    hide SkipSpaces, ParseElements, GoodItem, Blank;
    var body := if items == [] then blank else ItemsText(items);
    var after := body + "]" + rest;
    assert "[" + body + "]" + rest == "" + ['['] + after;
    EmptyIsBlank();
    ExpectAccepted("", '[', after);
    if items == [] {
      assert after == blank + [']'] + rest;
      BlankThen(blank, ']', rest);
      assert ([']'] + rest)[1..] == rest;
    } else {
      ItemsAccepted(items, rest);
      SkipsItems(items, rest);
    }
  }

  lemma EmptyIsBlank()
    ensures Blank("")
  {
  }

  /** The white space in front of the first number is skipped twice. */
  lemma SkipsItems(items: seq<Item>, rest: string)
    requires items != [] && GoodItems(items) && ParseElements(ItemsText(items) + "]" + rest).Some?
    ensures var u := SkipSpaces(ItemsText(items) + "]" + rest);
            u != [] && u[0] != ']' && ParseElements(u) == ParseElements(ItemsText(items) + "]" + rest)
  {
    var t := ItemsText(items) + "]" + rest;
    SkipTwice(t);
    assert ParseUnsigned(SkipSpaces(t)) == ParseUnsigned(t);
    assert ParseUnsigned(t).Some?;
  }

  lemma {:induction false} SkipTwice(t: string)
    ensures SkipSpaces(SkipSpaces(t)) == SkipSpaces(t)
  {
    if t != [] && IsSpace(t[0]) {
      SkipTwice(t[1..]);
    }
  }

  lemma ArrayFound(t: string) returns (before: string, items: seq<Item>, blank: string)
    requires ParseArray(t).Some?
    ensures Blank(before) && Blank(blank) && GoodItems(items) && ItemsMean(items) == ParseArray(t).value.0
    ensures t == before + "[" + (if items == [] then blank else ItemsText(items)) + "]" + ParseArray(t).value.1
  {
    hide SkipSpaces, ParseElements, GoodItem, Blank, ItemsText, ItemsMean;
    before := ExpectFound(t, '[');
    var after := Expect(t, '[').value;
    blank := SkipSplits(after);
    var u := SkipSpaces(after);
    if u != [] && u[0] == ']' {
      items := [];
      NoItems();
      assert u == "]" + u[1..];
      assert t == before + "[" + blank + "]" + u[1..];
    } else {
      items := ItemsFound(u);
      items := BlankBefore(blank, items);
      assert t == before + "[" + ItemsText(items) + "]" + ParseElements(u).value.1;
    }
  }

  lemma NoItems()
    ensures GoodItems([]) && ItemsMean([]) == []
  {
  }

  lemma BlankBefore(blank: string, items: seq<Item>) returns (r: seq<Item>)
    requires Blank(blank) && GoodItems(items) && items != []
    ensures GoodItems(r) && r != [] && ItemsMean(r) == ItemsMean(items) && ItemsText(r) == blank + ItemsText(items)
  {
    hide ItemText, DecimalValue, IsDecimal;
    var i := items[0];
    var first := i.(before := blank + i.before);
    r := [first] + items[1..];
    assert GoodItem(items[0]) && GoodItem(first);
    assert forall k :: 0 < k < |r| ==> r[k] == items[k];
    assert r[1..] == items[1..];
    MoreBlank(i, blank);
  }

  lemma MoreBlank(i: Item, blank: string)
    ensures ItemText(i.(before := blank + i.before)) == blank + ItemText(i)
  {
  }

  lemma ValueAccepted(before: string, v: Spelling, rest: string)
    requires Blank(before) && GoodSpelling(v)
    ensures ParseValue(before + SpellingText(v) + rest) == Some((SpellingMeans(v), rest))
  {
    hide ParseString, ParseArray, PiecesText, ItemsText, GoodPieces, GoodItems;
    var u := SpellingText(v) + rest;
    assert before + SpellingText(v) + rest == before + u;
    assert u[0] == (if v.Quoted? then '"' else '[');
    SkipsBlank(before, u);
    EmptyIsBlank();
    match v
    case Quoted(pieces) =>
      StringAccepted("", pieces, rest);
      assert u == "" + "\"" + PiecesText(pieces) + "\"" + rest;
    case Listed(items, blank) => ArrayAccepted(items, blank, rest);
  }

  lemma ValueFound(t: string) returns (before: string, v: Spelling)
    requires ParseValue(t).Some?
    ensures Blank(before) && GoodSpelling(v) && SpellingMeans(v) == ParseValue(t).value.0
    ensures t == before + SpellingText(v) + ParseValue(t).value.1
  {
    hide ParseString, ParseArray, Blank, GoodSpelling, SpellingText, SpellingMeans;
    before := SkipSplits(t);
    var u := SkipSpaces(t);
    if u[0] == '"' {
      v := QuotedFound(u);
      assert before + u == before + SpellingText(v) + ParseString(u).value.1;
    } else {
      v := ListedFound(u);
      assert before + u == before + SpellingText(v) + ParseArray(u).value.1;
    }
  }

  lemma QuotedFound(u: string) returns (v: Spelling)
    requires ParseString(u).Some? && u != [] && !IsSpace(u[0])
    ensures v.Quoted? && GoodSpelling(v) && SpellingMeans(v) == StringValue(ParseString(u).value.0)
    ensures u == SpellingText(v) + ParseString(u).value.1
  {
    hide ParseString, PiecesText, GoodPieces, PiecesMean, Blank, IsSpace;
    var b, ps := StringFound(u);
    var rest := ParseString(u).value.1;
    v := Quoted(ps);
    assert u == b + (SpellingText(v) + rest);
    FrontIs(u, b, SpellingText(v) + rest);
  }

  lemma ListedFound(u: string) returns (v: Spelling)
    requires ParseArray(u).Some? && u != [] && !IsSpace(u[0])
    ensures v.Listed? && GoodSpelling(v) && SpellingMeans(v) == ArrayValue(ParseArray(u).value.0)
    ensures u == SpellingText(v) + ParseArray(u).value.1
  {
    hide ParseArray, ItemsText, GoodItems, ItemsMean, Blank, IsSpace;
    var b, items, blank := ArrayFound(u);
    var rest := ParseArray(u).value.1;
    v := Listed(items, blank);
    assert u == b + (SpellingText(v) + rest);
    FrontIs(u, b, SpellingText(v) + rest);
  }

  /** A text that begins with no space has no white space in front. */
  lemma FrontIs(u: string, b: string, rest: string)
    requires Blank(b) && u == b + rest && u != [] && !IsSpace(u[0])
    ensures b == ""
  {
    if b != [] {
      assert u[0] == b[0];
      SpaceIsBlank(b[0]);
    }
  }

  // ---------------------------------------------------------------------------------------------
  // Objects
  // ---------------------------------------------------------------------------------------------

  /** A field with the white space before and behind its key, before its value and behind that. */
  datatype FieldSpelling = FieldSpelling(before: string, key: seq<Piece>, behindKey: string, beforeValue: string, value: Spelling, after: string)

  /** An object with the white space before and after it, and inside if it has no fields. */
  datatype ObjectSpelling = ObjectSpelling(before: string, fields: seq<FieldSpelling>, blank: string, after: string)

  ghost predicate GoodField(f: FieldSpelling) {
    Blank(f.before) && GoodPieces(f.key) && Blank(f.behindKey) && Blank(f.beforeValue) && GoodSpelling(f.value) && Blank(f.after)
  }

  ghost predicate GoodFields(fs: seq<FieldSpelling>) {
    forall i :: 0 <= i < |fs| ==> GoodField(fs[i])
  }

  ghost predicate GoodObject(o: ObjectSpelling) {
    Blank(o.before) && GoodFields(o.fields) && Blank(o.blank) && Blank(o.after)
  }

  function FieldText(f: FieldSpelling): string {
    f.before + "\"" + PiecesText(f.key) + "\"" + f.behindKey + ":" + f.beforeValue + SpellingText(f.value) + f.after
  }

  function FieldsText(fs: seq<FieldSpelling>): string {
    if fs == [] then "" else if |fs| == 1 then FieldText(fs[0]) else FieldText(fs[0]) + "," + FieldsText(fs[1..])
  }

  function ObjectText(o: ObjectSpelling): string {
    o.before + "{" + (if o.fields == [] then o.blank else FieldsText(o.fields)) + "}" + o.after
  }

  ghost function FieldMeans(f: FieldSpelling): Field
    requires GoodField(f)
  {
    Field(PiecesMean(f.key), SpellingMeans(f.value))
  }

  ghost function FieldsMean(fs: seq<FieldSpelling>): seq<Field>
    requires GoodFields(fs)
  {
    if fs == [] then [] else [FieldMeans(fs[0])] + FieldsMean(fs[1..])
  }

  lemma FieldAccepted(f: FieldSpelling, rest: string)
    requires GoodField(f)
    ensures ParseField(FieldText(f) + rest) == Some((FieldMeans(f), f.after + rest))
  {
    hide ParseString, ParseValue, PiecesText, SpellingText, GoodPieces, GoodSpelling, Blank, Expect;
    var value := f.beforeValue + SpellingText(f.value) + (f.after + rest);
    var behind := f.behindKey + [':'] + value;
    assert FieldText(f) + rest == f.before + "\"" + PiecesText(f.key) + "\"" + behind;
    StringAccepted(f.before, f.key, behind);
    ExpectAccepted(f.behindKey, ':', value);
    ValueAccepted(f.beforeValue, f.value, f.after + rest);
  }

  lemma FieldFound(t: string) returns (f: FieldSpelling)
    requires ParseField(t).Some?
    ensures GoodField(f) && f.after == "" && FieldMeans(f) == ParseField(t).value.0
    ensures t == FieldText(f) + ParseField(t).value.1
  {
    hide ParseString, ParseValue, PiecesText, SpellingText, GoodPieces, GoodSpelling, Blank, Expect, PiecesMean, SpellingMeans;
    EmptyIsBlank();
    var before, key := StringFound(t);
    var behind := ParseString(t).value.1;
    var behindKey := ExpectFound(behind, ':');
    var value := Expect(behind, ':').value;
    var beforeValue, v := ValueFound(value);
    f := FieldSpelling(before, key, behindKey, beforeValue, v, "");
    var rest := ParseValue(value).value.1;
    assert FieldText(f) + rest
        == before + "\"" + PiecesText(key) + "\"" + (behindKey + [':'] + (beforeValue + SpellingText(v) + rest));
  }

  lemma {:induction false} FieldsAccepted(fs: seq<FieldSpelling>, after: string)
    requires fs != [] && GoodFields(fs) && Blank(after)
    ensures ParseFields(FieldsText(fs) + "}" + after) == Some(FieldsMean(fs))
    decreases |fs|
  {
    hide ParseField, SkipSpaces, Blank, FieldText, FieldMeans;
    var f := fs[0];
    if |fs| == 1 {
      assert FieldsText(fs) + "}" + after == FieldText(f) + ("}" + after);
      FieldAccepted(f, "}" + after);
      assert f.after + ("}" + after) == f.after + ['}'] + after;
      BlankThen(f.after, '}', after);
      assert (['}'] + after)[1..] == after;
      OnlyBlank(after);
      assert FieldsMean(fs[1..]) == [];
      assert FieldsMean(fs) == [FieldMeans(f)];
    } else {
      var more := FieldsText(fs[1..]) + "}" + after;
      assert FieldsText(fs) + "}" + after == FieldText(f) + ("," + more);
      FieldAccepted(f, "," + more);
      assert f.after + ("," + more) == f.after + [','] + more;
      BlankThen(f.after, ',', more);
      assert ([','] + more)[1..] == more;
      FieldsAccepted(fs[1..], after);
    }
  }

  lemma OnlyBlank(b: string)
    ensures SkipSpaces(b) == "" <==> Blank(b)
  {
    var c := SkipSplits(b);
    if Blank(b) {
      SkipsBlank(b, "");
      assert b + "" == b;
    } else {
      assert c + "" == c;
    }
  }

  lemma {:induction false} FieldsFound(t: string) returns (fs: seq<FieldSpelling>, after: string)
    requires ParseFields(t).Some?
    ensures fs != [] && GoodFields(fs) && Blank(after) && FieldsMean(fs) == ParseFields(t).value
    ensures t == FieldsText(fs) + "}" + after
    decreases |t|
  {
    hide ParseField, SkipSpaces, Blank, FieldMeans, GoodField, FieldText;
    var f, u := OneFieldFound(t);
    if u[0] == '}' {
      fs, after := [f], u[1..];
      OnlyBlank(after);
      assert FieldsMean(fs[1..]) == [];
      assert FieldsMean(fs) == [FieldMeans(f)];
      assert t == FieldsText(fs) + "}" + after;
    } else {
      var more, end := FieldsFound(u[1..]);
      fs, after := [f] + more, end;
      assert fs[1..] == more;
      assert t == FieldText(f) + "," + (FieldsText(more) + "}" + after);
    }
  }

  /** A field with the white space behind it, and what follows. */
  lemma OneFieldFound(t: string) returns (f: FieldSpelling, u: string)
    requires ParseField(t).Some? && SkipSpaces(ParseField(t).value.1) != []
    ensures GoodField(f) && FieldMeans(f) == ParseField(t).value.0
    ensures u == SkipSpaces(ParseField(t).value.1) && t == FieldText(f) + [u[0]] + u[1..]
  {
    hide ParseField, SkipSpaces, Blank, FieldMeans, GoodField, FieldText;
    var g := FieldFound(t);
    var left := ParseField(t).value.1;
    var behind := SkipSplits(left);
    u := SkipSpaces(left);
    f := BlankBehind(g, behind);
    assert u == [u[0]] + u[1..];
    assert t == FieldText(g) + (behind + u);
    assert FieldText(g) + (behind + u) == (FieldText(g) + behind) + u;
  }

  lemma BlankBehind(f: FieldSpelling, behind: string) returns (r: FieldSpelling)
    requires GoodField(f) && f.after == "" && Blank(behind)
    ensures GoodField(r) && FieldMeans(r) == FieldMeans(f) && FieldText(r) == FieldText(f) + behind && r.after == behind
  {
    r := f.(after := behind);
  }

  /** Every text of an object is parsed to what it means. */
  lemma ObjectAccepted(o: ObjectSpelling)
    requires GoodObject(o)
    ensures ParseObject(ObjectText(o)) == Some(FieldsMean(o.fields))
  {
    hide SkipSpaces, Blank, Expect, ParseFields, FieldsText, GoodFields;
    var body := if o.fields == [] then o.blank else FieldsText(o.fields);
    var inside := body + "}" + o.after;
    assert ObjectText(o) == o.before + ['{'] + inside;
    ExpectAccepted(o.before, '{', inside);
    if o.fields == [] {
      assert inside == o.blank + ['}'] + o.after;
      BlankThen(o.blank, '}', o.after);
      assert (['}'] + o.after)[1..] == o.after;
      OnlyBlank(o.after);
    } else {
      FieldsAccepted(o.fields, o.after);
      SkipsFields(inside);
    }
  }

  lemma SkipsFields(t: string)
    requires ParseFields(t).Some?
    ensures var u := SkipSpaces(t); u != [] && u[0] != '}' && ParseFields(u) == ParseFields(t)
  {
    SkipTwice(t);
    hide SkipSpaces, Chars;
    assert ParseString(SkipSpaces(t)) == ParseString(t);
    hide ParseString, ParseValue;
    assert ParseField(SkipSpaces(t)) == ParseField(t);
  }

  lemma ObjectFound(t: string) returns (o: ObjectSpelling)
    requires ParseObject(t).Some?
    ensures GoodObject(o) && ObjectText(o) == t && FieldsMean(o.fields) == ParseObject(t).value
  {
    hide SkipSpaces, Blank, Expect, ParseFields, FieldsText, FieldsMean, GoodField;
    var before := ExpectFound(t, '{');
    var inside := Expect(t, '{').value;
    var blank := SkipSplits(inside);
    var u := SkipSpaces(inside);
    if u != [] && u[0] == '}' {
      o := ObjectSpelling(before, [], blank, u[1..]);
      OnlyBlank(u[1..]);
      NoFieldSpellings();
      assert u == "}" + u[1..];
      assert ObjectText(o) == before + ['{'] + (blank + u);
    } else {
      var fs, after := FieldsFound(u);
      var front := BlankInFront(blank, fs);
      o := ObjectSpelling(before, front, blank, after);
      assert ObjectText(o) == before + ['{'] + (blank + (FieldsText(fs) + "}" + after));
    }
  }

  lemma NoFieldSpellings()
    ensures GoodFields([]) && FieldsMean([]) == []
  {
  }

  lemma BlankInFront(blank: string, fs: seq<FieldSpelling>) returns (r: seq<FieldSpelling>)
    requires Blank(blank) && GoodFields(fs) && fs != []
    ensures GoodFields(r) && r != [] && FieldsMean(r) == FieldsMean(fs) && FieldsText(r) == blank + FieldsText(fs)
  {
    hide FieldText, GoodPieces, GoodSpelling;
    var f := fs[0];
    var first := f.(before := blank + f.before);
    r := [first] + fs[1..];
    assert GoodField(fs[0]) && GoodField(first);
    assert forall k :: 0 < k < |r| ==> r[k] == fs[k];
    assert r[1..] == fs[1..];
    BlankFirst(f, blank);
  }

  lemma BlankFirst(f: FieldSpelling, blank: string)
    ensures FieldText(f.(before := blank + f.before)) == blank + FieldText(f)
  {
    hide PiecesText, SpellingText;
  }

  /** `t` is a text of an object with the fields `fs`. */
  ghost predicate SpellsObject(t: string, fs: seq<Field>) {
    exists o :: GoodObject(o) && ObjectText(o) == t && FieldsMean(o.fields) == fs
  }

  /** The parser accepts exactly the texts of the language, each with what it means; everything else, such
      as data behind the object, a raw control character, a number above 32 bits or a nested object, it
      refuses. */
  lemma ParsesExactly(t: string, fs: seq<Field>)
    ensures ParseObject(t) == Some(fs) <==> SpellsObject(t, fs)
  {
    hide ParseObject, ObjectText, FieldsMean, GoodFields, Blank;
    if ParseObject(t) == Some(fs) {
      var o := ObjectFound(t);
      assert GoodObject(o);
    }
    if SpellsObject(t, fs) {
      var o :| GoodObject(o) && ObjectText(o) == t && FieldsMean(o.fields) == fs;
      ObjectAccepted(o);
    }
  }

  // ---------------------------------------------------------------------------------------------
  // What is printed
  // ---------------------------------------------------------------------------------------------

  /** With `CharUndone` this leaves one text for each character: itself if it may stand for itself, its
      letter if it has one, and else four hex digits. */
  lemma EscapedTightly(c: char)
    ensures |EscapeChar(c)| == if c in {'"', '\\', 8 as char, 9 as char, 10 as char, 12 as char, 13 as char} then 2
                               else if c < ' ' then 6 else 1
  {
  }

  /** Numbers are printed without leading zeros, */
  lemma {:induction false} PrintedTightly(n: nat)
    ensures ToString(n)[0] == '0' ==> n == 0 && |ToString(n)| == 1
  {
    if n >= 10 {
      PrintedTightly(n / 10);
    }
  }

  /** and lists without white space. */
  lemma {:induction false} ListedTightly(vs: seq<nat>)
    ensures forall i :: 0 <= i < |Join(vs)| ==> Join(vs)[i] == ',' || IsDigit(Join(vs)[i])
  {
    hide ToString;
    if |vs| > 1 {
      ListedTightly(vs[..|vs| - 1]);
    }
  }
}
