/** The printer behind serializeCanonicalJson, a reader that undoes it, and the proof that it does: the
    text determines the value. */
module JsonText {
  import opened Results
  import opened Texts
  import opened CanonicalJson
  import opened Canonicalizer

  const QUOTE: CodeUnit := 34
  const COMMA: CodeUnit := 44
  const MINUS: CodeUnit := 45
  const COLON: CodeUnit := 58
  const OPEN_BRACKET: CodeUnit := 91
  const BACKSLASH: CodeUnit := 92
  const CLOSE_BRACKET: CodeUnit := 93
  const OPEN_BRACE: CodeUnit := 123
  const CLOSE_BRACE: CodeUnit := 125

  const NULL_WORD: Text := [110, 117, 108, 108]
  const TRUE_WORD: Text := [116, 114, 117, 101]
  const FALSE_WORD: Text := [102, 97, 108, 115, 101]

  /** What JSON.stringify prints without leaving anything out. */
  ghost predicate Printable(v: Js) {
    match v
    case Null => true
    case Bool(_) => true
    case Num(_) => true
    case Str(_) => true
    case Arr(items) => forall i :: 0 <= i < |items| ==> Printable(items[i])
    case Obj(members) => forall i :: 0 <= i < |members| ==> Printable(members[i].value)
    case _ => false
  }

  lemma {:induction false} CanonicalIsPrintable(v: Js)
    requires IsCanonical(v)
    ensures Printable(v)
  {
    match v
    case Arr(items) =>
      forall i | 0 <= i < |items| ensures Printable(items[i]) { CanonicalIsPrintable(items[i]); }
    case Obj(members) =>
      forall i | 0 <= i < |members| ensures Printable(members[i].value) { CanonicalIsPrintable(members[i].value); }
    case _ =>
  }

  /* ---- strings ---- */

  predicate IsHighSurrogate(c: CodeUnit) {
    0xD800 <= c <= 0xDBFF
  }

  predicate IsLowSurrogate(c: CodeUnit) {
    0xDC00 <= c <= 0xDFFF
  }

  /** Lower-case hexadecimal. */
  function HexDigit(d: int): CodeUnit
    requires 0 <= d < 16
  {
    if d < 10 then 48 + d else 87 + d
  }

  function EmitUnicode(c: CodeUnit, rest: Text): Text {
    [BACKSLASH, 117, HexDigit(c / 4096), HexDigit(c / 256 % 16), HexDigit(c / 16 % 16), HexDigit(c % 16)] + rest
  }

  /** One code unit in a JSON string: the short escapes, \\u escapes for other controls and for surrogates
      without a partner, itself otherwise. */
  function EmitUnit(c: CodeUnit, rest: Text): Text {
    if c == 8 then [BACKSLASH, 98] + rest
    else if c == 9 then [BACKSLASH, 116] + rest
    else if c == 10 then [BACKSLASH, 110] + rest
    else if c == 12 then [BACKSLASH, 102] + rest
    else if c == 13 then [BACKSLASH, 114] + rest
    else if c == QUOTE || c == BACKSLASH then [BACKSLASH, c] + rest
    else if c < 32 || IsHighSurrogate(c) || IsLowSurrogate(c) then EmitUnicode(c, rest)
    else [c] + rest
  }

  /** The characters of a string and its closing quote, in front of `rest`. */
  function EmitChars(s: Text, rest: Text): Text {
    if s == [] then [QUOTE] + rest
    else if |s| > 1 && IsHighSurrogate(s[0]) && IsLowSurrogate(s[1]) then [s[0], s[1]] + EmitChars(s[2..], rest)
    else EmitUnit(s[0], EmitChars(s[1..], rest))
  }

  /* ---- numbers ---- */

  function EmitDigits(n: nat, rest: Text): Text {
    if n < 10 then [48 + n] + rest else EmitDigits(n / 10, [48 + n % 10] + rest)
  }

  function EmitNumber(n: int, rest: Text): Text {
    if n < 0 then [MINUS] + EmitDigits(-n, rest) else EmitDigits(n, rest)
  }

  /* ---- values ---- */

  /** The JSON of a value in front of `rest`. */
  function Emit(v: Js, rest: Text): Text
    decreases v
  {
    match v
    case Null => NULL_WORD + rest
    case Bool(flag) => (if flag then TRUE_WORD else FALSE_WORD) + rest
    case Num(n) => EmitNumber(n, rest)
    case Str(text) => [QUOTE] + EmitChars(text, rest)
    case Arr(items) => [OPEN_BRACKET] + EmitItems(items, [CLOSE_BRACKET] + rest)
    case Obj(members) => [OPEN_BRACE] + EmitMembers(members, [CLOSE_BRACE] + rest)
    case _ => rest
  }

  function EmitItems(items: seq<Js>, rest: Text): Text {
    if items == [] then rest
    else if |items| == 1 then Emit(items[0], rest)
    else Emit(items[0], [COMMA] + EmitItems(items[1..], rest))
  }

  function EmitMembers(members: seq<Member>, rest: Text): Text {
    if members == [] then rest
    else
      var more := if |members| == 1 then rest else [COMMA] + EmitMembers(members[1..], rest);
      [QUOTE] + EmitChars(members[0].key, [COLON] + Emit(members[0].value, more))
  }

  /** JSON.stringify of a canonical value. */
  function Print(v: Js): Text {
    Emit(v, [])
  }

  /** serializeCanonicalJson. */
  function Serialize(v: Js): Result<Text> {
    var canonical :- Canon(v);
    Ok(Print(canonical))
  }

  /* ---- exactly which text ---- */

  /** A code unit is printed as itself unless it is a control, a quote, a backslash or half a surrogate pair. */
  lemma PlainUnits(c: CodeUnit, rest: Text)
    ensures c >= 32 && c != 34 && c != 92 && !(0xD800 <= c <= 0xDFFF) <==> EmitUnit(c, rest) == [c] + rest
    ensures c == 34 || c == 92 ==> EmitUnit(c, rest) == [92, c] + rest
  {
    if c == 34 || c == 92 {
      assert |EmitUnit(c, rest)| == |rest| + 2;
    } else if c < 32 || 0xD800 <= c <= 0xDFFF {
      assert |EmitUnit(c, rest)| > |rest| + 1;
    }
  }

  /** Five controls have an escape of one letter, every other unit that is escaped gets its four lower-case
      hexadecimal digits. */
  lemma EscapedUnits(c: CodeUnit, rest: Text)
    ensures c == 8 ==> EmitUnit(c, rest) == Ascii("\\b") + rest
    ensures c == 9 ==> EmitUnit(c, rest) == Ascii("\\t") + rest
    ensures c == 10 ==> EmitUnit(c, rest) == Ascii("\\n") + rest
    ensures c == 12 ==> EmitUnit(c, rest) == Ascii("\\f") + rest
    ensures c == 13 ==> EmitUnit(c, rest) == Ascii("\\r") + rest
    ensures (c < 8 || c == 11 || 14 <= c < 32 || 0xD800 <= c <= 0xDFFF) ==>
              exists w, x, y, z ::
                && IsHexDigit(w) && IsHexDigit(x) && IsHexDigit(y) && IsHexDigit(z)
                && c == HexOf(w) * 4096 + HexOf(x) * 256 + HexOf(y) * 16 + HexOf(z)
                && EmitUnit(c, rest) == [92, 117, w, x, y, z] + rest
  {
    assert Ascii("\\b") == [92, 98] && Ascii("\\t") == [92, 116] && Ascii("\\n") == [92, 110];
    assert Ascii("\\f") == [92, 102] && Ascii("\\r") == [92, 114];
    if c < 8 || c == 11 || 14 <= c < 32 || 0xD800 <= c <= 0xDFFF {
      HexDigitsOf(c);
      assert EmitUnit(c, rest) == [92, 117, HexDigit(c / 4096), HexDigit(c / 256 % 16), HexDigit(c / 16 % 16), HexDigit(c % 16)] + rest;
    }
  }

  predicate IsHexDigit(c: CodeUnit) {
    48 <= c <= 57 || 97 <= c <= 102
  }

  function HexOf(c: CodeUnit): int {
    if c <= 57 then c - 48 else c - 87
  }

  lemma HexDigitsOf(c: CodeUnit)
    ensures var w, x, y, z := HexDigit(c / 4096), HexDigit(c / 256 % 16), HexDigit(c / 16 % 16), HexDigit(c % 16);
            && IsHexDigit(w) && IsHexDigit(x) && IsHexDigit(y) && IsHexDigit(z)
            && c == HexOf(w) * 4096 + HexOf(x) * 256 + HexOf(y) * 16 + HexOf(z)
  {
    HexDigitIs(c / 4096);
    HexDigitIs(c / 256 % 16);
    HexDigitIs(c / 16 % 16);
    HexDigitIs(c % 16);
    FourHexDigits(c);
  }

  lemma HexDigitIs(d: int)
    requires 0 <= d < 16
    ensures IsHexDigit(HexDigit(d)) && HexOf(HexDigit(d)) == d
  {
  }

  /** A number prints as its decimal, without zeros in front, with a minus before it if it is negative. */
  lemma NumbersPrint(n: int, rest: Text)
    ensures exists digits :: PlainDecimal(digits) && Value(digits) == (if n < 0 then -n else n)
                             && EmitNumber(n, rest) == (if n < 0 then Ascii("-") else []) + digits + rest
  {
    assert Ascii("-") == [45];
    var digits := DigitsPrint(if n < 0 then -n else n, rest);
    assert EmitNumber(n, rest) == (if n < 0 then [45] else []) + digits + rest;
  }

  lemma {:induction false} DigitsPrint(n: nat, rest: Text) returns (digits: Text)
    ensures PlainDecimal(digits) && Value(digits) == n && EmitDigits(n, rest) == digits + rest
    ensures n > 0 ==> digits[0] != 48
    decreases n
  {
    if n < 10 {
      digits := [48 + n];
      assert digits[..0] == [];
    } else {
      var last: Text := [48 + n % 10];
      var front := DigitsPrint(n / 10, last + rest);
      digits := front + last;
      assert digits[..|digits| - 1] == front;
      assert front + (last + rest) == digits + rest;
    }
  }

  /** A key counts as an array index exactly when it is how a number below 2^32 - 1 prints. */
  lemma IndexKeysPrint(key: Text)
    ensures IsArrayIndex(key) <==> exists n: nat :: n <= 4294967294 && Print(Num(n)) == key
  {
    if IsArrayIndex(key) {
      ValueIsPositive(key);
      PrintsPlain(Value(key), key);
    }
    if n: nat :| n <= 4294967294 && Print(Num(n)) == key {
      PrintsPlain(n, key);
    }
  }

  lemma PrintsPlain(n: nat, digits: Text)
    ensures PlainDecimal(digits) && Value(digits) == n <==> Print(Num(n)) == digits
  {
    var printed := DigitsPrint(n, []);
    assert printed + [] == printed;
    if PlainDecimal(digits) && Value(digits) == n {
      SameValueSameDigits(printed, digits);
    }
  }

  /** The order in which an object's members are printed: numbers that count as indices come first and go up;
      of two other keys, the first is the beginning of the second or has the lower unit where they differ. */
  lemma MembersInOrder(members: seq<Member>, i: nat, j: nat)
    requires IsCanonical(Obj(members)) && i < j < |members|
    ensures forall n: nat :: n <= 4294967294 && Print(Num(n)) == members[j].key ==> exists m: nat :: m < n && Print(Num(m)) == members[i].key
    ensures (exists m: nat :: m <= 4294967294 && Print(Num(m)) == members[i].key)
            || exists k: nat :: DiffersAt(members[i].key, members[j].key, k)
  {
    var a, b := members[i].key, members[j].key;
    assert Before(a, b);
    forall n: nat | n <= 4294967294 && Print(Num(n)) == b
      ensures exists m: nat :: m < n && Print(Num(m)) == a
    {
      IndexKeysPrint(b);
      PrintsPlain(n, b);
      ValueIsPositive(a);
      PrintsPlain(Value(a), a);
    }
    IndexKeysPrint(a);
    if !IsArrayIndex(a) {
      LessDiffers(a, b);
    }
  }

  /* What is printed in front of a text is what is printed alone, and then the text. */

  lemma UnitInFront(c: CodeUnit, text: Text, rest: Text)
    ensures EmitUnit(c, text + rest) == EmitUnit(c, text) + rest
  {
  }

  lemma {:induction false} CharsInFront(s: Text, rest: Text)
    ensures EmitChars(s, rest) == EmitChars(s, []) + rest
  {
    if |s| > 1 && IsHighSurrogate(s[0]) && IsLowSurrogate(s[1]) {
      CharsInFront(s[2..], rest);
    } else if s != [] {
      CharsInFront(s[1..], rest);
      UnitInFront(s[0], EmitChars(s[1..], []), rest);
    }
  }

  lemma NumberInFront(n: int, rest: Text)
    ensures EmitNumber(n, rest) == EmitNumber(n, []) + rest
  {
    var digits := DigitsPrint(if n < 0 then -n else n, rest);
    var alone := DigitsPrint(if n < 0 then -n else n, []);
    SameValueSameDigits(digits, alone);
  }

  lemma {:induction false} InFront(v: Js, rest: Text)
    ensures Emit(v, rest) == Print(v) + rest
    decreases v, 0
  {
    match v
    case Num(n) => NumberInFront(n, rest);
    case Str(text) => CharsInFront(text, rest);
    case Arr(items) =>
      var parts := ItemsPrint(items, [CLOSE_BRACKET] + rest);
      var alone := ItemsPrint(items, [CLOSE_BRACKET]);
      assert parts == alone;
      ClosedInFront(CLOSE_BRACKET, Separated(parts), rest);
    case Obj(members) =>
      var parts := MembersPrint(members, [CLOSE_BRACE] + rest);
      var alone := MembersPrint(members, [CLOSE_BRACE]);
      assert parts == alone;
      ClosedInFront(CLOSE_BRACE, Separated(parts), rest);
    case _ =>
  }

  lemma ClosedInFront(close: CodeUnit, inside: Text, rest: Text)
    ensures [close] + [] == [close] && inside + ([close] + rest) == (inside + [close]) + rest
  {
  }

  /** The parts with a comma between each two. */
  function Separated(parts: seq<Text>): Text {
    if parts == [] then [] else if |parts| == 1 then parts[0] else parts[0] + Ascii(",") + Separated(parts[1..])
  }

  lemma SeparatedCons(first: Text, more: seq<Text>)
    ensures Separated([first] + more) == if more == [] then first else first + [COMMA] + Separated(more)
  {
    assert ([first] + more)[1..] == more;
    assert Ascii(",") == [COMMA];
  }

  lemma {:induction false} ItemsPrint(items: seq<Js>, rest: Text) returns (parts: seq<Text>)
    ensures |parts| == |items| && forall i :: 0 <= i < |items| ==> parts[i] == Print(items[i])
    ensures EmitItems(items, rest) == Separated(parts) + rest
    decreases items, 1
  {
    if items == [] {
      return [];
    }
    var more := ItemsPrint(items[1..], rest);
    parts := [Print(items[0])] + more;
    FirstItem(items, rest);
    CommaInFront(Print(items[0]), more, rest);
  }

  lemma {:induction false} FirstItem(items: seq<Js>, rest: Text)
    requires items != []
    ensures EmitItems(items, rest) == Print(items[0]) + if |items| == 1 then rest else [COMMA] + EmitItems(items[1..], rest)
    decreases items, 0
  {
    InFront(items[0], if |items| == 1 then rest else [COMMA] + EmitItems(items[1..], rest));
  }

  lemma CommaInFront(first: Text, more: seq<Text>, rest: Text)
    ensures Separated([first] + more) + rest == first + if more == [] then rest else [COMMA] + (Separated(more) + rest)
  {
    SeparatedCons(first, more);
  }

  /** A member as it is printed: the key as a string, a colon, the value. */
  function PrintedMember(m: Member): Text {
    Print(Str(m.key)) + Ascii(":") + Print(m.value)
  }

  lemma {:induction false} MembersPrint(members: seq<Member>, rest: Text) returns (parts: seq<Text>)
    ensures |parts| == |members| && forall i :: 0 <= i < |members| ==> parts[i] == PrintedMember(members[i])
    ensures EmitMembers(members, rest) == Separated(parts) + rest
    decreases members, 1
  {
    if members == [] {
      return [];
    }
    var more := MembersPrint(members[1..], rest);
    parts := [PrintedMember(members[0])] + more;
    FirstMember(members, rest);
    CommaInFront(PrintedMember(members[0]), more, rest);
  }

  lemma {:induction false} FirstMember(members: seq<Member>, rest: Text)
    requires members != []
    ensures EmitMembers(members, rest)
            == PrintedMember(members[0]) + if |members| == 1 then rest else [COMMA] + EmitMembers(members[1..], rest)
    decreases members, 0
  {
    OneMember(members[0], if |members| == 1 then rest else [COMMA] + EmitMembers(members[1..], rest));
  }

  lemma {:induction false} OneMember(m: Member, rest: Text)
    ensures [QUOTE] + EmitChars(m.key, [COLON] + Emit(m.value, rest)) == PrintedMember(m) + rest
    decreases m, 0
  {
    assert Ascii(":") == [COLON];
    InFront(m.value, rest);
    var behind := [COLON] + Emit(m.value, rest);
    CharsInFront(m.key, behind);
    assert [QUOTE] + (EmitChars(m.key, []) + behind) == Print(Str(m.key)) + behind;
  }

  /** How values print: words, items between brackets, members between braces, commas between them. */
  lemma ValuesPrint(v: Js)
    ensures v.Null? ==> Print(v) == Ascii("null")
    ensures v.Bool? ==> Print(v) == if v.flag then Ascii("true") else Ascii("false")
    ensures v.Arr? ==> exists parts :: |parts| == |v.items| && (forall i :: 0 <= i < |parts| ==> parts[i] == Print(v.items[i]))
                                       && Print(v) == Ascii("[") + Separated(parts) + Ascii("]")
    ensures v.Obj? ==> exists parts :: |parts| == |v.members| && (forall i :: 0 <= i < |parts| ==> parts[i] == PrintedMember(v.members[i]))
                                       && Print(v) == Ascii("{") + Separated(parts) + Ascii("}")
  {
    match v
    case Null => WordsPrint();
    case Bool(_) => WordsPrint();
    case Arr(items) => var parts := ArraysPrint(items);
    case Obj(members) => var parts := ObjectsPrint(members);
    case _ =>
  }

  lemma ArraysPrint(items: seq<Js>) returns (parts: seq<Text>)
    ensures |parts| == |items| && forall i :: 0 <= i < |items| ==> parts[i] == Print(items[i])
    ensures Print(Arr(items)) == Ascii("[") + Separated(parts) + Ascii("]")
  {
    BracketsPrint();
    parts := ItemsPrint(items, [CLOSE_BRACKET]);
    assert [CLOSE_BRACKET] + [] == [CLOSE_BRACKET];
    assert Print(Arr(items)) == [OPEN_BRACKET] + (Separated(parts) + [CLOSE_BRACKET]);
  }

  lemma ObjectsPrint(members: seq<Member>) returns (parts: seq<Text>)
    ensures |parts| == |members| && forall i :: 0 <= i < |members| ==> parts[i] == PrintedMember(members[i])
    ensures Print(Obj(members)) == Ascii("{") + Separated(parts) + Ascii("}")
  {
    BracketsPrint();
    parts := MembersPrint(members, [CLOSE_BRACE]);
    assert [CLOSE_BRACE] + [] == [CLOSE_BRACE];
    assert Print(Obj(members)) == [OPEN_BRACE] + (Separated(parts) + [CLOSE_BRACE]);
  }

  lemma WordsPrint()
    ensures Ascii("null") == NULL_WORD && Ascii("true") == TRUE_WORD && Ascii("false") == FALSE_WORD
  {
  }

  lemma BracketsPrint()
    ensures Ascii("[") == [OPEN_BRACKET] && Ascii("]") == [CLOSE_BRACKET] && Ascii("{") == [OPEN_BRACE] && Ascii("}") == [CLOSE_BRACE]
  {
  }

  /** How a string prints: between quotes, surrogate pairs as they are, every other unit by itself. */
  lemma StringsPrint(s: Text)
    ensures Print(Str(s)) == Ascii("\"") + EmitChars(s, [])
    ensures s == [] ==> EmitChars(s, []) == Ascii("\"")
    ensures IsPair(s) ==> EmitChars(s, []) == s[..2] + EmitChars(s[2..], [])
    ensures s != [] && !IsPair(s) ==> EmitChars(s, []) == EmitUnit(s[0], []) + EmitChars(s[1..], [])
  {
    assert Ascii("\"") == [QUOTE];
    assert [QUOTE] + [] == [QUOTE];
    PairsPrint(s);
    UnitsPrint(s);
  }

  /** A high and a low surrogate in front. */
  predicate IsPair(s: Text) {
    |s| > 1 && 0xD800 <= s[0] <= 0xDBFF && 0xDC00 <= s[1] <= 0xDFFF
  }

  lemma PairsPrint(s: Text)
    ensures IsPair(s) ==> EmitChars(s, []) == s[..2] + EmitChars(s[2..], [])
  {
    if IsPair(s) {
      assert s[..2] == [s[0], s[1]];
    }
  }

  lemma UnitsPrint(s: Text)
    ensures s != [] && !IsPair(s) ==> EmitChars(s, []) == EmitUnit(s[0], []) + EmitChars(s[1..], [])
  {
    if s != [] && !IsPair(s) {
      UnitInFront(s[0], [], EmitChars(s[1..], []));
      assert [] + EmitChars(s[1..], []) == EmitChars(s[1..], []);
    }
  }

  /* ---- the reader ---- */

  datatype Parsed<+T> = Parsed(value: T, rest: Text)

  function HexValue(c: CodeUnit): Option<int> {
    if IsDigit(c) then Some(c - 48) else if 97 <= c <= 102 then Some(c - 87) else None
  }

  /** The code unit an escape stands for, after the backslash. */
  function ReadEscape(text: Text): (r: Option<Parsed<CodeUnit>>)
    ensures r.Some? ==> |r.value.rest| < |text|
  {
    if text == [] then None
    else if text[0] == 98 then Some(Parsed(8, text[1..]))
    else if text[0] == 116 then Some(Parsed(9, text[1..]))
    else if text[0] == 110 then Some(Parsed(10, text[1..]))
    else if text[0] == 102 then Some(Parsed(12, text[1..]))
    else if text[0] == 114 then Some(Parsed(13, text[1..]))
    else if text[0] == QUOTE || text[0] == BACKSLASH then Some(Parsed(text[0], text[1..]))
    else if text[0] == 117 && |text| >= 5 then
      var a, b, c, d := HexValue(text[1]), HexValue(text[2]), HexValue(text[3]), HexValue(text[4]);
      if a.Some? && b.Some? && c.Some? && d.Some?
      then Some(Parsed(a.value * 4096 + b.value * 256 + c.value * 16 + d.value, text[5..]))
      else None
    else None
  }

  function ReadChars(text: Text): (r: Option<Parsed<Text>>)
    ensures r.Some? ==> |r.value.rest| < |text|
  {
    if text == [] then None
    else if text[0] == QUOTE then Some(Parsed([], text[1..]))
    else
      var unit := if text[0] == BACKSLASH then ReadEscape(text[1..]) else Some(Parsed(text[0], text[1..]));
      if unit.None? then None
      else
        var more := ReadChars(unit.value.rest);
        if more.None? then None else Some(Parsed([unit.value.value] + more.value.value, more.value.rest))
  }

  function ReadDigits(text: Text, soFar: nat): (r: Parsed<nat>)
    ensures |r.rest| <= |text|
  {
    if text == [] || !IsDigit(text[0]) then Parsed(soFar, text) else ReadDigits(text[1..], soFar * 10 + (text[0] as int - 48))
  }

  function ReadValue(text: Text): (r: Option<Parsed<Js>>)
    ensures r.Some? ==> |r.value.rest| < |text|
    decreases |text|, 1
  {
    if text == [] then None
    else if StartsWith(text, NULL_WORD) then Some(Parsed(Null, text[4..]))
    else if StartsWith(text, TRUE_WORD) then Some(Parsed(Bool(true), text[4..]))
    else if StartsWith(text, FALSE_WORD) then Some(Parsed(Bool(false), text[5..]))
    else if text[0] == QUOTE then
      var chars := ReadChars(text[1..]);
      if chars.None? then None else Some(Parsed(Str(chars.value.value), chars.value.rest))
    else if text[0] == OPEN_BRACKET then
      if |text| > 1 && text[1] == CLOSE_BRACKET then Some(Parsed(Arr([]), text[2..]))
      else
        var items := ReadItems(text[1..]);
        if items.None? then None else Some(Parsed(Arr(items.value.value), items.value.rest))
    else if text[0] == OPEN_BRACE then
      if |text| > 1 && text[1] == CLOSE_BRACE then Some(Parsed(Obj([]), text[2..]))
      else
        var members := ReadMembers(text[1..]);
        if members.None? then None else Some(Parsed(Obj(members.value.value), members.value.rest))
    else if text[0] == MINUS && |text| > 1 && IsDigit(text[1]) then
      var digits := ReadDigits(text[1..], 0);
      Some(Parsed(Num(0 - digits.value as int), digits.rest))
    else if IsDigit(text[0]) then
      var digits := ReadDigits(text[1..], text[0] as int - 48);
      Some(Parsed(Num(digits.value), digits.rest))
    else None
  }

  /** Items up to and including the closing bracket. */
  function ReadItems(text: Text): (r: Option<Parsed<seq<Js>>>)
    ensures r.Some? ==> |r.value.rest| < |text|
    decreases |text|, 2
  {
    var first := ReadValue(text);
    if first.None? || first.value.rest == [] then None
    else
      var rest := first.value.rest;
      if rest[0] == CLOSE_BRACKET then Some(Parsed([first.value.value], rest[1..]))
      else if rest[0] != COMMA then None
      else
        var more := ReadItems(rest[1..]);
        if more.None? then None else Some(Parsed([first.value.value] + more.value.value, more.value.rest))
  }

  /** Members up to and including the closing brace. */
  function ReadMembers(text: Text): (r: Option<Parsed<seq<Member>>>)
    ensures r.Some? ==> |r.value.rest| < |text|
    decreases |text|, 2
  {
    if text == [] || text[0] != QUOTE then None
    else
      var key := ReadChars(text[1..]);
      if key.None? || key.value.rest == [] || key.value.rest[0] != COLON then None
      else
        var value := ReadValue(key.value.rest[1..]);
        if value.None? || value.value.rest == [] then None
        else
          var m, rest := Member(key.value.value, value.value.value), value.value.rest;
          if rest[0] == CLOSE_BRACE then Some(Parsed([m], rest[1..]))
          else if rest[0] != COMMA then None
          else
            var more := ReadMembers(rest[1..]);
            if more.None? then None else Some(Parsed([m] + more.value.value, more.value.rest))
  }

  /** Reads a whole text as one value. */
  function Read(text: Text): Option<Js> {
    var parsed := ReadValue(text);
    if parsed.Some? && parsed.value.rest == [] then Some(parsed.value.value) else None
  }

  /* ---- reading undoes printing ---- */

  lemma FourHexDigits(c: CodeUnit)
    ensures c == c / 4096 * 4096 + c / 256 % 16 * 256 + c / 16 % 16 * 16 + c % 16
  {
    var high, middle := c / 256, c / 16;
    assert middle / 16 == high && high / 16 == c / 4096;
  }

  lemma ReadHex(d: int)
    requires 0 <= d < 16
    ensures HexValue(HexDigit(d)) == Some(d)
  {
  }

  lemma ReadUnicode(c: CodeUnit, rest: Text)
    ensures ReadEscape(EmitUnicode(c, rest)[1..]) == Some(Parsed(c, rest))
  {
    FourHexDigits(c);
    ReadFourHex(c / 4096, c / 256 % 16, c / 16 % 16, c % 16, rest);
    assert EmitUnicode(c, rest)[1..] == [117, HexDigit(c / 4096), HexDigit(c / 256 % 16), HexDigit(c / 16 % 16), HexDigit(c % 16)] + rest;
  }

  lemma ReadFourHex(a: int, b: int, c: int, d: int, rest: Text)
    requires 0 <= a < 16 && 0 <= b < 16 && 0 <= c < 16 && 0 <= d < 16
    ensures ReadEscape([117, HexDigit(a), HexDigit(b), HexDigit(c), HexDigit(d)] + rest) == Some(Parsed(a * 4096 + b * 256 + c * 16 + d, rest))
  {
    var text := [117, HexDigit(a), HexDigit(b), HexDigit(c), HexDigit(d)] + rest;
    ReadHex(a);
    ReadHex(b);
    ReadHex(c);
    ReadHex(d);
    assert text[5..] == rest;
  }

  lemma ReadUnit(c: CodeUnit, rest: Text)
    ensures var text := EmitUnit(c, rest);
            && text != [] && text[0] != QUOTE
            && (if text[0] == BACKSLASH then ReadEscape(text[1..]) else Some(Parsed(text[0], text[1..]))) == Some(Parsed(c, rest))
  {
    var text := EmitUnit(c, rest);
    ReadUnicode(c, rest);
    if text[0] == BACKSLASH {
      assert text != EmitUnicode(c, rest) ==> text[1..][1..] == rest;
    } else {
      assert text[1..] == rest;
    }
  }

  /** Both halves of a surrogate pair are read as they stand. */
  lemma ReadPair(high: CodeUnit, low: CodeUnit, tail: Text)
    requires IsHighSurrogate(high) && IsLowSurrogate(low) && ReadChars(tail).Some?
    ensures ReadChars([high, low] + tail)
            == Some(Parsed([high] + ([low] + ReadChars(tail).value.value), ReadChars(tail).value.rest))
  {
    assert ([high, low] + tail)[1..] == [low] + tail;
    assert ([low] + tail)[1..] == tail;
  }

  lemma {:induction false} ReadEmittedChars(s: Text, rest: Text)
    ensures ReadChars(EmitChars(s, rest)) == Some(Parsed(s, rest))
  {
    if s == [] {
      assert ([QUOTE] + rest)[1..] == rest;
    } else if |s| > 1 && IsHighSurrogate(s[0]) && IsLowSurrogate(s[1]) {
      ReadEmittedChars(s[2..], rest);
      ReadPair(s[0], s[1], EmitChars(s[2..], rest));
      assert [s[0]] + ([s[1]] + s[2..]) == s;
    } else {
      ReadEmittedChars(s[1..], rest);
      ReadUnit(s[0], EmitChars(s[1..], rest));
      assert [s[0]] + s[1..] == s;
    }
  }

  lemma {:induction false} ReadEmittedDigits(n: nat, rest: Text)
    ensures EmitDigits(n, rest) != [] && IsDigit(EmitDigits(n, rest)[0])
    ensures ReadDigits(EmitDigits(n, rest), 0) == ReadDigits(rest, n)
    decreases n
  {
    if n < 10 {
      assert ([48 + n] + rest)[1..] == rest;
    } else {
      var tail := [48 + n % 10] + rest;
      ReadEmittedDigits(n / 10, tail);
      assert tail[1..] == rest;
      assert ReadDigits(tail, n / 10) == ReadDigits(rest, n / 10 * 10 + n % 10);
    }
  }

  predicate EndsNumber(rest: Text) {
    rest == [] || !IsDigit(rest[0])
  }

  /** The first character tells the kinds of values apart. */
  lemma EmitStarts(v: Js, rest: Text)
    requires Printable(v)
    ensures Emit(v, rest) != []
    ensures Emit(v, rest)[0] != CLOSE_BRACKET && Emit(v, rest)[0] != CLOSE_BRACE
  {
    if v.Num? {
      ReadEmittedDigits(if v.n < 0 then -v.n else v.n, rest);
    }
  }

  lemma {:induction false} ReadEmitted(v: Js, rest: Text)
    requires Printable(v) && EndsNumber(rest)
    ensures ReadValue(Emit(v, rest)) == Some(Parsed(v, rest))
    decreases v
  {
    match v
    case Null => ReadEmittedNull(rest);
    case Bool(flag) => ReadEmittedBool(flag, rest);
    case Num(n) => ReadEmittedNumber(n, rest);
    case Str(s) => ReadEmittedString(s, rest);
    case Arr(items) =>
      if items != [] {
        ReadEmittedItems(items, rest);
      }
      ReadEmittedArray(items, rest);
    case Obj(members) =>
      if members != [] {
        ReadEmittedMembers(members, rest);
      }
      ReadEmittedObject(members, rest);
    case _ =>
  }

  /** A text that starts with none of the letters n, t and f is no word. */
  lemma NoWord(text: Text)
    requires text != [] && text[0] != 110 && text[0] != 116 && text[0] != 102
    ensures !StartsWith(text, NULL_WORD) && !StartsWith(text, TRUE_WORD) && !StartsWith(text, FALSE_WORD)
  {
    assert |text| >= 4 ==> text[..4][0] == text[0];
    assert |text| >= 5 ==> text[..5][0] == text[0];
  }

  lemma ReadEmittedNull(rest: Text)
    ensures ReadValue(Emit(Null, rest)) == Some(Parsed(Null, rest))
  {
    var text := Emit(Null, rest);
    assert text[..4] == NULL_WORD && text[4..] == rest;
  }

  lemma ReadEmittedString(s: Text, rest: Text)
    ensures ReadValue(Emit(Str(s), rest)) == Some(Parsed(Str(s), rest))
  {
    ReadEmittedChars(s, rest);
    NoWord(Emit(Str(s), rest));
    assert Emit(Str(s), rest)[1..] == EmitChars(s, rest);
  }

  lemma ReadEmittedArray(items: seq<Js>, rest: Text)
    requires var inner := EmitItems(items, [CLOSE_BRACKET] + rest);
             items != [] ==> inner != [] && inner[0] != CLOSE_BRACKET && ReadItems(inner) == Some(Parsed(items, rest))
    ensures ReadValue(Emit(Arr(items), rest)) == Some(Parsed(Arr(items), rest))
  {
    var text := Emit(Arr(items), rest);
    NoWord(text);
    assert text[1..] == EmitItems(items, [CLOSE_BRACKET] + rest);
    if items == [] {
      assert text[2..] == rest;
    }
  }

  lemma ReadEmittedObject(members: seq<Member>, rest: Text)
    requires var inner := EmitMembers(members, [CLOSE_BRACE] + rest);
             members != [] ==> inner != [] && inner[0] != CLOSE_BRACE && ReadMembers(inner) == Some(Parsed(members, rest))
    ensures ReadValue(Emit(Obj(members), rest)) == Some(Parsed(Obj(members), rest))
  {
    var text := Emit(Obj(members), rest);
    NoWord(text);
    assert text[1..] == EmitMembers(members, [CLOSE_BRACE] + rest);
    if members == [] {
      assert text[2..] == rest;
    }
  }

  lemma ReadEmittedBool(flag: bool, rest: Text)
    ensures ReadValue(Emit(Bool(flag), rest)) == Some(Parsed(Bool(flag), rest))
  {
    var text := Emit(Bool(flag), rest);
    if flag {
      assert text[..4] == TRUE_WORD && text[4..] == rest;
    } else {
      assert text[..5] == FALSE_WORD && text[5..] == rest;
    }
  }

  lemma ReadEmittedNumber(n: int, rest: Text)
    requires EndsNumber(rest)
    ensures ReadValue(Emit(Num(n), rest)) == Some(Parsed(Num(n), rest))
  {
    var text := Emit(Num(n), rest);
    ReadEmittedDigits(if n < 0 then -n else n, rest);
    NoWord(text);
    if n < 0 {
      assert text[1..] == EmitDigits(-n, rest);
    } else {
      assert ReadDigits(text, 0) == ReadDigits(text[1..], text[0] as int - 48);
    }
  }

  lemma {:induction false} ReadEmittedItems(items: seq<Js>, rest: Text)
    requires items != [] && forall i :: 0 <= i < |items| ==> Printable(items[i])
    ensures EmitItems(items, [CLOSE_BRACKET] + rest) != [] && EmitItems(items, [CLOSE_BRACKET] + rest)[0] != CLOSE_BRACKET
    ensures ReadItems(EmitItems(items, [CLOSE_BRACKET] + rest)) == Some(Parsed(items, rest))
    decreases items
  {
    var end := [CLOSE_BRACKET] + rest;
    var after := if |items| == 1 then end else [COMMA] + EmitItems(items[1..], end);
    EmitStarts(items[0], after);
    ReadEmitted(items[0], after);
    if |items| == 1 {
      assert end[1..] == rest && items == [items[0]];
    } else {
      ReadEmittedItems(items[1..], rest);
      ReadOneMore(EmitItems(items, end), items[0], EmitItems(items[1..], end), items[1..], rest);
      assert [items[0]] + items[1..] == items;
    }
  }

  lemma ReadOneMore(text: Text, first: Js, more: Text, items: seq<Js>, rest: Text)
    requires ReadValue(text) == Some(Parsed(first, [COMMA] + more)) && ReadItems(more) == Some(Parsed(items, rest))
    ensures ReadItems(text) == Some(Parsed([first] + items, rest))
  {
    assert ([COMMA] + more)[1..] == more;
  }

  lemma {:induction false} ReadEmittedMembers(members: seq<Member>, rest: Text)
    requires members != [] && forall i :: 0 <= i < |members| ==> Printable(members[i].value)
    ensures EmitMembers(members, [CLOSE_BRACE] + rest) != [] && EmitMembers(members, [CLOSE_BRACE] + rest)[0] != CLOSE_BRACE
    ensures ReadMembers(EmitMembers(members, [CLOSE_BRACE] + rest)) == Some(Parsed(members, rest))
    decreases members
  {
    var end := [CLOSE_BRACE] + rest;
    var after := if |members| == 1 then end else [COMMA] + EmitMembers(members[1..], end);
    var m := members[0];
    var value := [COLON] + Emit(m.value, after);
    ReadEmitted(m.value, after);
    ReadEmittedChars(m.key, value);
    assert EmitMembers(members, end)[1..] == EmitChars(m.key, value);
    assert value[1..] == Emit(m.value, after);
    if |members| == 1 {
      assert end[1..] == rest && members == [m];
    } else {
      ReadEmittedMembers(members[1..], rest);
      assert after[1..] == EmitMembers(members[1..], end);
      assert [m] + members[1..] == members;
    }
  }

  /* ---- what it means for the audit log ---- */

  /** The reader recovers the canonical value from the serialized text. */
  lemma ReadUndoesSerialize(v: Js)
    requires WellFormed(v) && Serialize(v).Ok?
    ensures Read(Serialize(v).value) == Some(Canon(v).value)
  {
    CanonGivesCanonical(v);
    CanonicalIsPrintable(Canon(v).value);
    ReadEmitted(Canon(v).value, []);
  }

  /** Two values serialize to the same text exactly when they mean the same: the order of members never
      matters, and everything else that counts always does. */
  lemma SameTextSameMeaning(a: Js, b: Js)
    requires WellFormed(a) && WellFormed(b) && Serialize(a).Ok? && Serialize(b).Ok?
    ensures Serialize(a) == Serialize(b) <==> SameMeaning(a, b)
    ensures Serialize(a) == Serialize(b) <==> Canon(a) == Canon(b)
  {
    ReadUndoesSerialize(a);
    ReadUndoesSerialize(b);
    CanonIsMeaning(a, b);
  }

  /** Serializing the canonical value again gives the same text. */
  lemma SerializeAgain(v: Js)
    requires WellFormed(v) && Canon(v).Ok?
    ensures Canon(Canon(v).value) == Canon(v) && Serialize(Canon(v).value) == Serialize(v)
  {
    CanonGivesCanonical(v);
    CanonKeepsCanonical(Canon(v).value);
  }

  /** The one member a payload can carry without a trace in the text, whatever its value. */
  lemma ProtoMemberLeavesNoTrace(v: Js, members: seq<Member>)
    requires WellFormed(Obj(members)) && !HasKey(members, PROTO) && WellFormed(v)
    requires Serialize(Obj(members)).Ok? && Canon(v).Ok?
    ensures Serialize(Obj(members + [Member(PROTO, v)])) == Serialize(Obj(members))
  {
    MoreIsWellFormed(members, v);
    MoreCanonicalizes(members, v);
    MoreMeansTheSame(members, v);
    SameMeaningSerializesAlike(Obj(members), Obj(members + [Member(PROTO, v)]));
  }

  lemma SameMeaningSerializesAlike(a: Js, b: Js)
    requires WellFormed(a) && WellFormed(b) && Canon(a).Ok? && Canon(b).Ok? && SameMeaning(a, b)
    ensures Serialize(a) == Serialize(b)
  {
    CanonIsMeaning(a, b);
  }

  lemma MoreCanonicalizes(members: seq<Member>, v: Js)
    requires Canon(Obj(members)).Ok? && Canon(v).Ok?
    ensures Canon(Obj(members + [Member(PROTO, v)])).Ok?
  {
    var more := members + [Member(PROTO, v)];
    CanonMembersAreForms(members);
    CanonMembersAreForms(more);
    assert forall i :: 0 <= i < |members| ==> more[i] == members[i];
    assert Canonicalizes(more);
  }

  lemma MoreIsWellFormed(members: seq<Member>, v: Js)
    requires WellFormed(Obj(members)) && !HasKey(members, PROTO) && WellFormed(v)
    ensures WellFormed(Obj(members + [Member(PROTO, v)]))
  {
    var more := members + [Member(PROTO, v)];
    forall i, j | 0 <= i < j < |more|
      ensures more[i].key != more[j].key
    {
      assert more[i] == members[i];
      assert j < |members| ==> more[j] == members[j];
    }
  }

  lemma MoreMeansTheSame(members: seq<Member>, v: Js)
    requires DistinctKeys(members) && forall i :: 0 <= i < |members| ==> WellFormed(members[i].value)
    ensures SameMeaning(Obj(members), Obj(members + [Member(PROTO, v)]))
  {
    var more := members + [Member(PROTO, v)];
    assert forall i :: 0 <= i < |members| ==> more[i] == members[i];
    forall i, j | 0 <= i < |members| && 0 <= j < |more| && Counts(members[i]) && Counts(more[j]) && members[i].key == more[j].key
      ensures SameMeaning(members[i].value, more[j].value)
    {
      assert more[j] == members[j] && i == j;
      MeansItself(members[i].value);
    }
  }

  lemma {:induction false} MeansItself(v: Js)
    requires WellFormed(v)
    ensures SameMeaning(v, v)
  {
    match v
    case Arr(items) =>
      forall i | 0 <= i < |items| ensures SameMeaning(items[i], items[i]) { MeansItself(items[i]); }
    case Obj(members) =>
      forall i, j | 0 <= i < |members| && 0 <= j < |members| && Counts(members[i]) && Counts(members[j]) && members[i].key == members[j].key
        ensures SameMeaning(members[i].value, members[j].value)
      {
        assert i == j;
        MeansItself(members[i].value);
      }
    case _ =>
  }
}
