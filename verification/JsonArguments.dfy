/** JSON values printed, decoded, and salvaged from what a model wrote around them. */
module JsonArguments {
  import opened Records
  import opened JsonScan

  // ---------------------------------------------------------------- JSON values

  /** Sections 4 and 7 of RFC 8259; a number is kept as it is written. */
  datatype Json = Null | Bool(b: bool) | Number(digits: string) | Str(s: string) | Arr(items: Items) | Obj(members: Members)
  datatype Items = NoItems | Item(v: Json, more: Items)
  datatype Members = NoMembers | Member(key: string, v: Json, more: Members)

  predicate IsDigit(c: char) {
    '0' <= c <= '9'
  }

  predicate NumberChar(c: char) {
    IsDigit(c) || c == '-' || c == '+' || c == '.' || c == 'e' || c == 'E'
  }

  function Digits(s: string, i: nat): (p: nat)
    requires i <= |s|
    ensures i <= p <= |s| && (p < |s| ==> !IsDigit(s[p]))
    ensures forall k :: i <= k < p ==> IsDigit(s[k])
    decreases |s| - i
  {
    if i < |s| && IsDigit(s[i]) then Digits(s, i + 1) else i
  }

  /** The end of the integer part at the start of s; 0 when there is none. */
  function IntEnd(s: string): (p: nat)
    ensures p <= |s| && forall k :: 0 <= k < p ==> NumberChar(s[k])
  {
    var i := if s != "" && s[0] == '-' then 1 else 0;
    if i == |s| || !IsDigit(s[i]) then 0
    else if s[i] == '0' then i + 1
    else Digits(s, i)
  }

  function FracEnd(s: string, i: nat): (p: nat)
    requires i <= |s|
    ensures i <= p <= |s| && forall k :: i <= k < p ==> NumberChar(s[k])
  {
    if i + 1 < |s| && s[i] == '.' && IsDigit(s[i + 1]) then Digits(s, i + 1) else i
  }

  function ExpEnd(s: string, i: nat): (p: nat)
    requires i <= |s|
    ensures i <= p <= |s| && forall k :: i <= k < p ==> NumberChar(s[k])
  {
    if i < |s| && (s[i] == 'e' || s[i] == 'E') then
      var j := if i + 1 < |s| && (s[i + 1] == '+' || s[i + 1] == '-') then i + 2 else i + 1;
      if j < |s| && IsDigit(s[j]) then Digits(s, j) else i
    else i
  }

  /** The longest number of section 6 of RFC 8259 at the start of s; 0 when there is none. */
  function NumberEnd(s: string): (p: nat)
    ensures p <= |s| && forall k :: 0 <= k < p ==> NumberChar(s[k])
  {
    if IntEnd(s) == 0 then 0 else ExpEnd(s, FracEnd(s, IntEnd(s)))
  }

  function KeysOf(members: Members): set<string> {
    if members.NoMembers? then {} else {members.key} + KeysOf(members.more)
  }

  /** Numbers follow the grammar, and no object has one key twice. */
  predicate WellJson(v: Json) {
    match v
    case Number(d) => d != "" && NumberEnd(d) == |d|
    case Arr(items) => WellItems(items)
    case Obj(members) => WellMembers(members)
    case _ => true
  }

  predicate WellItems(items: Items) {
    items.NoItems? || (WellJson(items.v) && WellItems(items.more))
  }

  predicate WellMembers(members: Members) {
    members.NoMembers? || (members.key !in KeysOf(members.more) && WellJson(members.v) && WellMembers(members.more))
  }

  function Hex(n: int): char
    requires 0 <= n < 16
  {
    if n < 10 then (48 + n) as char else (87 + n) as char
  }

  /** Quotes, backslashes and control characters are escaped. */
  function Encode(s: string): Literal {
    if s == "" then Done
    else
      var more, c := Encode(s[1..]), s[0];
      if c == '"' || c == '\\' then Esc(c, more)
      else if c < ' ' then
        Esc('u', Plain('0', Plain('0', Plain(Hex(c as int / 16), Plain(Hex(c as int % 16), more)))))
      else Plain(c, more)
  }

  function Marks(s: string, k: Text): Text {
    if s == "" then k else Mark(s[0], Marks(s[1..], k))
  }

  /** A value written before the text k. */
  function TextOf(v: Json, k: Text): Text {
    match v
    case Null => Marks("null", k)
    case Bool(b) => Marks(if b then "true" else "false", k)
    case Number(d) => Marks(d, k)
    case Str(s) => Quote(Encode(s), k)
    case Arr(items) => Mark('[', WrittenItems(items, Mark(']', k)))
    case Obj(members) => Brace(WrittenMembers(members), k)
  }

  function WrittenItems(items: Items, k: Text): Text {
    if items.NoItems? then k
    else TextOf(items.v, if items.more.NoItems? then k else Marks(", ", WrittenItems(items.more, k)))
  }

  function WrittenMembers(members: Members): Text {
    if members.NoMembers? then End
    else
      Quote(Encode(members.key),
            Marks(": ", TextOf(members.v, if members.more.NoMembers? then End else Marks(", ", WrittenMembers(members.more)))))
  }

  function Print(v: Json): string {
    Flat(TextOf(v, End))
  }

  lemma {:induction false} EncodedIsWell(s: string)
    ensures WellLiteral(Encode(s))
  {
    if s != "" {
      EncodedIsWell(s[1..]);
      if s[0] < ' ' {
        var low := Plain(Hex(s[0] as int / 16), Plain(Hex(s[0] as int % 16), Encode(s[1..])));
        assert WellLiteral(low) by { assert forall n :: 0 <= n < 16 ==> Hex(n) != '"' && Hex(n) != '\\'; }
        assert WellLiteral(Plain('0', Plain('0', low)));
      }
    }
  }

  lemma {:induction false} MarksAreWell(s: string, k: Text)
    requires WellText(k) && forall i :: 0 <= i < |s| ==> s[i] != '"' && s[i] != '\\' && s[i] != '{' && s[i] != '}'
    ensures WellText(Marks(s, k))
  {
    if s != "" { MarksAreWell(s[1..], k); }
  }

  lemma {:induction false} WrittenIsWell(v: Json, k: Text)
    requires WellJson(v) && WellText(k)
    ensures WellText(TextOf(v, k))
    decreases v
  {
    match v
    case Null => MarksAreWell("null", k);
    case Bool(b) => MarksAreWell(if b then "true" else "false", k);
    case Number(d) => MarksAreWell(d, k);
    case Str(s) => EncodedIsWell(s);
    case Arr(items) => ItemsAreWell(items, Mark(']', k));
    case Obj(members) => MembersAreWell(members);
  }

  lemma {:induction false} ItemsAreWell(items: Items, k: Text)
    requires WellItems(items) && WellText(k)
    ensures WellText(WrittenItems(items, k))
    decreases items
  {
    if items.Item? {
      ItemsAreWell(items.more, k);
      MarksAreWell(", ", WrittenItems(items.more, k));
      WrittenIsWell(items.v, if items.more.NoItems? then k else Marks(", ", WrittenItems(items.more, k)));
    }
  }

  lemma {:induction false} MembersAreWell(members: Members)
    requires WellMembers(members)
    ensures WellText(WrittenMembers(members))
    decreases members
  {
    if members.Member? {
      EncodedIsWell(members.key);
      MembersAreWell(members.more);
      MarksAreWell(", ", WrittenMembers(members.more));
      var k := if members.more.NoMembers? then End else Marks(", ", WrittenMembers(members.more));
      WrittenIsWell(members.v, k);
      MarksAreWell(": ", TextOf(members.v, k));
    }
  }

  /** A printed object, whatever its strings hold and whatever follows it, is cut at its end. */
  lemma CutsPrinted(o: Json, g: string)
    requires o.Obj? && WellJson(o)
    ensures Cut(Print(o) + g) == Some(|Print(o)|)
  {
    MembersAreWell(o.members);
    CutsBalanced(WrittenMembers(o.members), g);
    assert TextOf(o, End) == Brace(WrittenMembers(o.members), End) && Flat(End) == "";
    assert Print(o) == "{" + Flat(WrittenMembers(o.members)) + "}" + Flat(End);
    assert Print(o) == "{" + Flat(WrittenMembers(o.members)) + "}";
  }

  // ---------------------------------------------------------------- the decoder

  function HexValue(c: char): Option<nat> {
    if IsDigit(c) then Some(c as int - '0' as int)
    else if 'a' <= c <= 'f' then Some(c as int - 'a' as int + 10)
    else if 'A' <= c <= 'F' then Some(c as int - 'A' as int + 10)
    else None
  }

  lemma HexValueIff(c: char, k: nat)
    ensures HexValue(c) == Some(k) <==> k < 16 && (c == "0123456789abcdef"[k] || c == "0123456789ABCDEF"[k])
  {
  }

  /** The character four hexadecimal digits name, surrogates excepted. */
  function Hex4(s: string): Option<char>
    requires |s| == 4
  {
    var a, b, c, d := HexValue(s[0]), HexValue(s[1]), HexValue(s[2]), HexValue(s[3]);
    if a.None? || b.None? || c.None? || d.None? then None
    else
      var n := 4096 * a.value + 256 * b.value + 16 * c.value + d.value;
      if n < 0xD800 || 0xE000 <= n < 0x10000 then Some(n as char) else None
  }

  function Unescaped(c: char): Option<char> {
    if c == '"' || c == '\\' || c == '/' then Some(c)
    else if c == 'b' then Some(8 as char)
    else if c == 'f' then Some(12 as char)
    else if c == 'n' then Some('\n')
    else if c == 'r' then Some('\r')
    else if c == 't' then Some('\t')
    else None
  }

  /** A string from behind its opening quote, and what follows its closing one. */
  function ReadString(s: string): (r: Option<(string, string)>)
    ensures r.Some? ==> |r.value.1| < |s|
    decreases |s|
  {
    if s == "" then None
    else if s[0] == '"' then Some(("", s[1..]))
    else if s[0] == '\\' then
      if |s| == 1 then None
      else if s[1] == 'u' then
        if |s| < 6 || Hex4(s[2..6]).None? then None
        else
          var more := ReadString(s[6..]);
          if more.None? then None else Some(([Hex4(s[2..6]).value] + more.value.0, more.value.1))
      else
        var more := ReadString(s[2..]);
        if more.None? || Unescaped(s[1]).None? then None
        else Some(([Unescaped(s[1]).value] + more.value.0, more.value.1))
    else if s[0] < ' ' then None
    else
      var more := ReadString(s[1..]);
      if more.None? then None else Some(([s[0]] + more.value.0, more.value.1))
  }

  predicate StartsWith(s: string, word: string) {
    word <= s
  }

  function Without(members: Members, key: string): Members {
    if members.NoMembers? then members
    else if members.key == key then Without(members.more, key)
    else members.(more := Without(members.more, key))
  }

  function ValueAt(members: Members, key: string): Json
    requires key in KeysOf(members)
  {
    if members.key == key && key !in KeysOf(members.more) then members.v else ValueAt(members.more, key)
  }

  /** Of a key given twice the place is the first one's, the value the last one's. */
  function Joined(key: string, v: Json, more: Members): Members {
    if key in KeysOf(more) then Member(key, ValueAt(more, key), Without(more, key)) else Member(key, v, more)
  }

  lemma {:induction false} WithoutIs(members: Members, key: string, k: string)
    ensures KeysOf(Without(members, key)) == KeysOf(members) - {key}
    ensures k in KeysOf(members) && k != key ==> ValueAt(Without(members, key), k) == ValueAt(members, k)
  {
    if members.Member? {
      WithoutIs(members.more, key, k);
    }
  }

  /** Each key is there once, with the value given last. */
  lemma JoinedIs(key: string, v: Json, more: Members, k: string)
    ensures KeysOf(Joined(key, v, more)) == KeysOf(more) + {key}
    ensures k in KeysOf(more) + {key} ==>
              ValueAt(Joined(key, v, more), k) == if k in KeysOf(more) then ValueAt(more, k) else v
  {
    WithoutIs(more, key, k);
  }

  /** A value at the start of s, and what follows it. */
  function ReadValue(s: string): (r: Option<(Json, string)>)
    ensures r.Some? ==> |r.value.1| < |s|
    decreases |s|, 0
  {
    if s == "" then None
    else if s[0] == '"' then
      var r := ReadString(s[1..]);
      if r.None? then None else Some((Str(r.value.0), r.value.1))
    else if s[0] == '[' then
      var t := LStrip(s[1..]);
      if t != "" && t[0] == ']' then Some((Arr(NoItems), t[1..]))
      else
        var r := ReadElements(t);
        if r.None? then None else Some((Arr(r.value.0), r.value.1))
    else if s[0] == '{' then
      var t := LStrip(s[1..]);
      if t != "" && t[0] == '}' then Some((Obj(NoMembers), t[1..]))
      else
        var r := ReadMembers(t);
        if r.None? then None else Some((Obj(r.value.0), r.value.1))
    else if StartsWith(s, "null") then Some((Null, s[4..]))
    else if StartsWith(s, "true") then Some((Bool(true), s[4..]))
    else if StartsWith(s, "false") then Some((Bool(false), s[5..]))
    else if NumberEnd(s) > 0 then Some((Number(s[..NumberEnd(s)]), s[NumberEnd(s)..]))
    else None
  }

  function ReadElements(s: string): (r: Option<(Items, string)>)
    ensures r.Some? ==> |r.value.1| < |s|
    decreases |s|, 1
  {
    var v := ReadValue(s);
    if v.None? then None
    else
      var t := LStrip(v.value.1);
      if t == "" then None
      else if t[0] == ']' then Some((Item(v.value.0, NoItems), t[1..]))
      else if t[0] != ',' then None
      else
        var more := ReadElements(LStrip(t[1..]));
        if more.None? then None else Some((Item(v.value.0, more.value.0), more.value.1))
  }

  function ReadMembers(s: string): (r: Option<(Members, string)>)
    ensures r.Some? ==> |r.value.1| < |s|
    decreases |s|, 1
  {
    if s == "" || s[0] != '"' then None
    else
      var key := ReadString(s[1..]);
      if key.None? then None
      else
        var colon := LStrip(key.value.1);
        if colon == "" || colon[0] != ':' then None
        else
          var v := ReadValue(LStrip(colon[1..]));
          if v.None? then None
          else
            var t := LStrip(v.value.1);
            if t == "" then None
            else if t[0] == '}' then Some((Member(key.value.0, v.value.0, NoMembers), t[1..]))
            else if t[0] != ',' then None
            else
              var more := ReadMembers(LStrip(t[1..]));
              if more.None? then None else Some((Joined(key.value.0, v.value.0, more.value.0), more.value.1))
  }

  /** One value and nothing but blanks around it. */
  function Loads(s: string): Option<Json> {
    var v := ReadValue(LStrip(s));
    if v.Some? && LStrip(v.value.1) == "" then Some(v.value.0) else None
  }

  // ---------------------------------------------------------------- what is printed is read back

  /** The printed form, piece by piece. */
  function Shown(v: Json): string {
    match v
    case Null => "null"
    case Bool(b) => if b then "true" else "false"
    case Number(d) => d
    case Str(s) => "\"" + FlatLiteral(Encode(s)) + "\""
    case Arr(items) => "[" + ShownItems(items) + "]"
    case Obj(members) => "{" + ShownMembers(members) + "}"
  }

  function ShownItems(items: Items): string {
    if items.NoItems? then ""
    else if items.more.NoItems? then Shown(items.v)
    else Shown(items.v) + ", " + ShownItems(items.more)
  }

  function ShownMembers(members: Members): string {
    if members.NoMembers? then ""
    else
      "\"" + FlatLiteral(Encode(members.key)) + "\": " + Shown(members.v)
      + (if members.more.NoMembers? then "" else ", " + ShownMembers(members.more))
  }

  lemma {:induction false} FlatMarks(s: string, k: Text)
    ensures Flat(Marks(s, k)) == s + Flat(k)
  {
    if s != "" {
      FlatMarks(s[1..], k);
      assert s == [s[0]] + s[1..];
    } else {
      assert s + Flat(k) == Flat(k);
    }
  }

  lemma {:induction false} FlatShown(v: Json, k: Text)
    ensures Flat(TextOf(v, k)) == Shown(v) + Flat(k)
    decreases v
  {
    match v
    case Null => FlatMarks("null", k);
    case Bool(b) => FlatMarks(if b then "true" else "false", k);
    case Number(d) => FlatMarks(d, k);
    case Str(s) => assert Flat(Quote(Encode(s), k)) == "\"" + FlatLiteral(Encode(s)) + "\"" + Flat(k);
    case Arr(items) =>
      FlatShownItems(items, Mark(']', k));
      assert Flat(TextOf(v, k)) == ['['] + (ShownItems(items) + ([']'] + Flat(k)));
    case Obj(members) =>
      FlatShownMembers(members);
      assert Flat(TextOf(v, k)) == "{" + ShownMembers(members) + "}" + Flat(k);
  }

  lemma {:induction false} FlatShownItems(items: Items, k: Text)
    ensures Flat(WrittenItems(items, k)) == ShownItems(items) + Flat(k)
    decreases items
  {
    hide Flat, TextOf, Shown, Marks;
    if items.NoItems? {
    } else if items.more.NoItems? {
      FlatShown(items.v, k);
    } else {
      var rest := WrittenItems(items.more, k);
      FlatShown(items.v, Marks(", ", rest));
      FlatMarks(", ", rest);
      FlatShownItems(items.more, k);
      Associates(Shown(items.v), ", ", ShownItems(items.more), Flat(k));
    }
  }

  lemma Associates(a: string, b: string, c: string, d: string)
    ensures a + (b + (c + d)) == a + b + c + d
    ensures a + (b + c + d) == a + b + c + d
  {
  }

  lemma {:induction false} FlatShownMembers(members: Members)
    ensures Flat(WrittenMembers(members)) == ShownMembers(members)
    decreases members
  {
    hide FlatLiteral, Encode, Shown, TextOf, Marks;
    if members.Member? {
      var key := FlatLiteral(Encode(members.key));
      var k := if members.more.NoMembers? then End else Marks(", ", WrittenMembers(members.more));
      FlatMarks(", ", WrittenMembers(members.more));
      FlatShownMembers(members.more);
      FlatShown(members.v, k);
      FlatMarks(": ", TextOf(members.v, k));
      Regroup(key, Shown(members.v), Flat(k));
    }
  }

  lemma Regroup(key: string, value: string, tail: string)
    ensures "\"" + key + "\"" + (": " + (value + tail)) == "\"" + key + "\": " + value + tail
  {
  }

  lemma PrintedIsShown(v: Json)
    ensures Print(v) == Shown(v)
  {
    FlatShown(v, End);
    assert Shown(v) + Flat(End) == Shown(v);
  }

  lemma HexBack(c: char)
    requires c < ' '
    ensures Hex4(['0', '0', Hex(c as int / 16), Hex(c as int % 16)]) == Some(c)
  {
    var high, low := c as int / 16, c as int % 16;
    assert HexValue(Hex(high)) == Some(high) && HexValue(Hex(low)) == Some(low) && HexValue('0') == Some(0);
    assert 16 * high + low == c as int;
  }

  /** One character as it is written inside a string. */
  function Escaped(c: char): string {
    if c == '"' || c == '\\' then ['\\', c]
    else if c < ' ' then ['\\', 'u', '0', '0', Hex(c as int / 16), Hex(c as int % 16)]
    else [c]
  }

  lemma EncodedFirst(s: string)
    requires s != ""
    ensures FlatLiteral(Encode(s)) == Escaped(s[0]) + FlatLiteral(Encode(s[1..]))
  {
    var c, more := s[0], Encode(s[1..]);
    if c != '"' && c != '\\' && c < ' ' {
      EscapedControl(Hex(c as int / 16), Hex(c as int % 16), more);
    }
  }

  lemma EscapedControl(a: char, b: char, more: Literal)
    ensures FlatLiteral(Esc('u', Plain('0', Plain('0', Plain(a, Plain(b, more))))))
         == ['\\', 'u', '0', '0', a, b] + FlatLiteral(more)
  {
    assert FlatLiteral(Plain(a, Plain(b, more))) == [a] + ([b] + FlatLiteral(more));
    assert FlatLiteral(Plain('0', Plain('0', Plain(a, Plain(b, more))))) == ['0'] + (['0'] + ([a] + ([b] + FlatLiteral(more))));
  }

  lemma ReadEscaped(c: char, tail: string)
    ensures ReadString(Escaped(c) + tail)
         == var more := ReadString(tail); if more.None? then None else Some(([c] + more.value.0, more.value.1))
  {
    var t := Escaped(c) + tail;
    if c == '"' || c == '\\' {
      assert t[2..] == tail && t[0] == '\\' && t[1] == c;
    } else if c < ' ' {
      HexBack(c);
      assert t[2..6] == ['0', '0', Hex(c as int / 16), Hex(c as int % 16)] && t[6..] == tail;
    } else {
      assert t[1..] == tail && t[0] == c;
    }
  }

  lemma {:induction false} ReadStringBack(s: string, r: string)
    ensures ReadString(FlatLiteral(Encode(s)) + "\"" + r) == Some((s, r))
  {
    if s == "" {
      assert FlatLiteral(Encode(s)) + "\"" + r == "\"" + r;
      assert ("\"" + r)[1..] == r;
    } else {
      hide *;
      var tail := FlatLiteral(Encode(s[1..])) + "\"" + r;
      ReadStringBack(s[1..], r);
      EncodedFirst(s);
      ReadEscaped(s[0], tail);
      Associates(Escaped(s[0]), FlatLiteral(Encode(s[1..])), "\"", r);
      assert s == [s[0]] + s[1..];
    }
  }

  /** No number goes on into r. */
  predicate Ends(r: string) {
    r == "" || !NumberChar(r[0])
  }

  lemma {:induction false} DigitsStop(d: string, r: string, i: nat)
    requires i <= |d| && Ends(r)
    ensures Digits(d + r, i) == Digits(d, i)
    decreases |d| - i
  {
    if i < |d| && IsDigit(d[i]) {
      DigitsStop(d, r, i + 1);
    }
  }

  lemma IntStops(d: string, r: string)
    requires Ends(r) && IntEnd(d) > 0
    ensures IntEnd(d + r) == IntEnd(d)
  {
    DigitsStop(d, r, if d[0] == '-' then 1 else 0);
  }

  lemma FracStops(d: string, r: string, i: nat)
    requires Ends(r) && i <= |d|
    ensures FracEnd(d + r, i) == FracEnd(d, i)
  {
    hide Digits;
    if i + 1 < |d| {
      DigitsStop(d, r, i + 1);
    }
  }

  lemma ExpStops(d: string, r: string, i: nat)
    requires Ends(r) && i <= |d|
    ensures ExpEnd(d + r, i) == ExpEnd(d, i)
  {
    hide Digits;
    if i + 1 < |d| {
      DigitsStop(d, r, i + 1);
    }
    if i + 2 < |d| {
      DigitsStop(d, r, i + 2);
    }
  }

  lemma NumberStops(d: string, r: string)
    requires Ends(r) && IntEnd(d) > 0
    ensures NumberEnd(d + r) == NumberEnd(d)
  {
    hide IntEnd, FracEnd, ExpEnd;
    IntStops(d, r);
    FracStops(d, r, IntEnd(d));
    ExpStops(d, r, FracEnd(d, IntEnd(d)));
  }

  lemma ReadNumberBack(d: string, r: string)
    requires d != "" && NumberEnd(d) == |d| && Ends(r)
    ensures ReadValue(d + r) == Some((Number(d), r))
  {
    NumberStops(d, r);
    var s := d + r;
    assert NumberChar(d[0]);
    assert s[..|d|] == d && s[|d|..] == r;
    assert !StartsWith(s, "null") && !StartsWith(s, "true") && !StartsWith(s, "false");
  }

  /** Nothing blank, and no closing bracket, stands at the start of a value. */
  lemma ShownStarts(v: Json)
    requires WellJson(v)
    ensures Shown(v) != "" && !IsBlank(Shown(v)[0]) && Shown(v)[0] != ']'
  {
    match v
    case Number(d) => assert NumberChar(d[0]);
    case _ =>
  }

  lemma ReadWordBack(v: Json, r: string)
    requires v.Null? || v.Bool?
    ensures ReadValue(Shown(v) + r) == Some((v, r))
  {
    hide ReadString, ReadElements, ReadMembers, NumberEnd;
    var word := Shown(v);
    var s := word + r;
    assert s[..|word|] == word && s[|word|..] == r;
  }

  lemma ReadStrBack(x: string, r: string)
    ensures ReadValue(Shown(Str(x)) + r) == Some((Str(x), r))
  {
    ReadStringBack(x, r);
    hide ReadString, FlatLiteral, Encode;
    var s := Shown(Str(x)) + r;
    assert s[0] == '"' && s[1..] == FlatLiteral(Encode(x)) + "\"" + r;
  }

  lemma ReadArrBack(items: Items, r: string)
    requires var t := ShownItems(items) + "]" + r;
      items.Item? ==> ReadElements(t) == Some((items, r)) && t != "" && t[0] != ']' && LStrip(t) == t
    ensures ReadValue(Shown(Arr(items)) + r) == Some((Arr(items), r))
  {
    hide ReadElements, ReadMembers, ReadString, NumberEnd, ShownItems;
    Bracketed("[", ShownItems(items), "]", r);
    if items.NoItems? {
      ShownNothing();
      Bracketed("", "", "]", r);
    }
  }

  lemma ShownNothing()
    ensures ShownItems(NoItems) == "" && ShownMembers(NoMembers) == ""
  {
  }

  lemma Bracketed(open: string, inner: string, close: string, r: string)
    requires |open| <= 1 && |close| == 1
    ensures var s := open + inner + close + r;
      && (open != "" ==> s[0] == open[0] && s[1..] == inner + close + r)
      && (open == "" && inner == "" ==> s[0] == close[0] && s[1..] == r)
  {
  }

  lemma ReadObjBack(members: Members, r: string)
    requires var t := ShownMembers(members) + "}" + r;
      members.Member? ==> ReadMembers(t) == Some((members, r)) && t != "" && t[0] == '"' && LStrip(t) == t
    ensures ReadValue(Shown(Obj(members)) + r) == Some((Obj(members), r))
  {
    hide ReadElements, ReadMembers, ReadString, NumberEnd, ShownMembers;
    Bracketed("{", ShownMembers(members), "}", r);
    if members.NoMembers? {
      ShownNothing();
      Bracketed("", "", "}", r);
    }
  }

  lemma {:induction false} ReadBack(v: Json, r: string)
    requires WellJson(v) && (v.Number? ==> Ends(r))
    ensures ReadValue(Shown(v) + r) == Some((v, r))
    decreases v
  {
    hide ReadValue, ReadElements, ReadMembers, ShownItems, ShownMembers, NumberEnd, Ends, FlatLiteral, Encode;
    match v
    case Number(d) => ReadNumberBack(d, r);
    case Str(x) => ReadStrBack(x, r);
    case Arr(items) =>
      if items.Item? {
        ReadElementsBack(items, r);
      }
      ReadArrBack(items, r);
    case Obj(members) =>
      if members.Member? {
        ReadMembersBack(members, r);
      }
      ReadObjBack(members, r);
    case _ => ReadWordBack(v, r);
  }

  lemma {:induction false} ReadElementsBack(items: Items, r: string)
    requires WellItems(items) && items.Item?
    ensures var t := ShownItems(items) + "]" + r;
      ReadElements(t) == Some((items, r)) && t != "" && t[0] != ']' && LStrip(t) == t
    decreases items
  {
    hide ReadValue, ReadElements, Shown, NumberEnd, WellJson;
    ShownStarts(items.v);
    if items.more.NoItems? {
      var rest := "]" + r;
      ReadBack(items.v, rest);
      ReadOneElement(items.v, rest);
      assert ShownItems(items) + "]" + r == Shown(items.v) + rest && rest[1..] == r;
    } else {
      var tail := ShownItems(items.more) + "]" + r;
      var rest := ", " + tail;
      ReadBack(items.v, rest);
      ReadOneElement(items.v, rest);
      ReadElementsBack(items.more, r);
      assert ShownItems(items) + "]" + r == Shown(items.v) + rest;
      AfterComma(tail);
    }
  }

  lemma AfterComma(tail: string)
    requires LStrip(tail) == tail
    ensures LStrip((", " + tail)[1..]) == tail
  {
    assert (", " + tail)[1..] == " " + tail && (" " + tail)[1..] == tail;
  }

  lemma ReadOneElement(v: Json, rest: string)
    requires ReadValue(Shown(v) + rest) == Some((v, rest)) && rest != "" && rest[0] in {']', ','}
    ensures ReadElements(Shown(v) + rest)
         == if rest[0] == ']' then Some((Item(v, NoItems), rest[1..]))
            else var more := ReadElements(LStrip(rest[1..]));
                 if more.None? then None else Some((Item(v, more.value.0), more.value.1))
  {
    hide ReadValue, Shown;
  }

  /** One member at the front of t, step by step. */
  lemma ReadOneMember(key: string, v: Json, rest: string)
    requires WellJson(v) && ReadValue(Shown(v) + rest) == Some((v, rest)) && rest != "" && rest[0] in {'}', ','}
    ensures var t := "\"" + FlatLiteral(Encode(key)) + "\": " + Shown(v) + rest;
      ReadMembers(t) == if rest[0] == '}' then Some((Member(key, v, NoMembers), rest[1..]))
                        else var more := ReadMembers(LStrip(rest[1..]));
                             if more.None? then None else Some((Joined(key, v, more.value.0), more.value.1))
  {
    hide ReadString, FlatLiteral, Encode, Shown, ReadValue, Joined, KeysOf, WellJson;
    var value := Shown(v) + rest;
    ReadStringBack(key, ": " + value);
    ShownStarts(v);
    MemberParts(FlatLiteral(Encode(key)), Shown(v), rest);
    StripParts(value);
  }

  lemma MemberParts(key: string, value: string, rest: string)
    ensures var t := "\"" + key + "\": " + value + rest;
      t[0] == '"' && t[1..] == key + "\"" + (": " + (value + rest))
  {
  }

  lemma StripParts(value: string)
    requires value != "" && !IsBlank(value[0])
    ensures var tail := ": " + value;
      LStrip(tail) == tail && tail[0] == ':' && LStrip(tail[1..]) == value
  {
    var tail := ": " + value;
    assert tail[1..] == " " + value && (" " + value)[1..] == value;
    assert LStrip(value) == value;
  }

  lemma {:induction false} ReadMembersBack(members: Members, r: string)
    requires WellMembers(members) && members.Member?
    ensures var t := ShownMembers(members) + "}" + r;
      ReadMembers(t) == Some((members, r)) && t != "" && t[0] == '"' && LStrip(t) == t
    decreases members
  {
    hide FlatLiteral, Encode, Shown, ReadValue, ReadMembers, NumberEnd, WellJson;
    var t := ShownMembers(members) + "}" + r;
    var start := "\"" + FlatLiteral(Encode(members.key)) + "\": " + Shown(members.v);
    if members.more.NoMembers? {
      var rest := "}" + r;
      ReadBack(members.v, rest);
      ReadOneMember(members.key, members.v, rest);
      assert t == start + rest && rest[1..] == r;
    } else {
      var tail := ShownMembers(members.more) + "}" + r;
      var rest := ", " + tail;
      ReadBack(members.v, rest);
      ReadOneMember(members.key, members.v, rest);
      ReadMembersBack(members.more, r);
      assert t == start + rest;
      AfterComma(tail);
    }
  }

  /** Every value, printed, is decoded to itself; and an object with more text behind it to itself or to nothing. */
  lemma LoadsIsFaithful()
    ensures Faithful(Loads)
  {
    forall v | WellJson(v)
      ensures Loads(Print(v)) == Some(v)
    {
      PrintedIsShown(v);
      ReadBack(v, "");
      ShownStarts(v);
      assert Shown(v) + "" == Shown(v);
    }
    forall o: Json, g: string | o.Obj? && WellJson(o)
      ensures Loads(Print(o) + g).None? || Loads(Print(o) + g) == Some(o)
    {
      PrintedIsShown(o);
      ReadBack(o, g);
    }
  }

  /** Two values that print alike are one. */
  lemma PrintIsInjective(v: Json, w: Json)
    requires WellJson(v) && WellJson(w) && Print(v) == Print(w)
    ensures v == w
  {
    LoadsIsFaithful();
    assert Loads(Print(v)) == Some(v) && Loads(Print(w)) == Some(w);
  }

  // ---------------------------------------------------------------- action arguments

  /** What the decoder must be: it reads back what is printed, and takes an object with more text
      behind it for that object or for no JSON at all. */
  ghost predicate Faithful(loads: string -> Option<Json>) {
    && (forall v :: WellJson(v) ==> loads(Print(v)) == Some(v))
    && (forall o: Json, g: string :: o.Obj? && WellJson(o) ==> loads(Print(o) + g).None? || loads(Print(o) + g) == Some(o))
  }

  function Extract(raw: string, loads: string -> Option<Json>): Option<Json> {
    var s := LStrip(raw);
    var end := Cut(s);
    if end.None? then None else loads(s[..end.value])
  }

  method ExtractLeadingObject(raw: string, loads: string -> Option<Json>) returns (r: Option<Json>)
    ensures r == Extract(raw, loads)
  {
    var s := LStrip(raw);
    var end := FindCut(s);
    r := if end.None? then None else loads(s[..end.value]);
  }

  function Wrap(text: string): Json {
    Obj(Member("input", Str(text), NoMembers))
  }

  predicate IsWrapper(o: Json) {
    o.Obj? && o.members.Member? && o == Wrap(if o.members.v.Str? then o.members.v.s else "")
  }

  /** One level of wrapping is taken off. */
  function Unwrap(o: Json, loads: string -> Option<Json>): Json {
    if !IsWrapper(o) then o
    else
      var inner := Extract(o.members.v.s, loads);
      if inner.Some? && inner.value.Obj? then inner.value else o
  }

  /** The arguments read from a reply's action input. */
  function Arguments(raw: string, loads: string -> Option<Json>): Json {
    var whole := loads(raw);
    var parsed := if whole.Some? then whole else Extract(raw, loads);
    if parsed.Some? && parsed.value.Obj? then Unwrap(parsed.value, loads) else Wrap(raw)
  }

  /** Whatever the decoder and the text, the arguments are an object; a text that is no JSON and opens no object is kept
      whole, under one key. */
  lemma ArgumentsAreAnObject(raw: string, loads: string -> Option<Json>)
    ensures Arguments(raw, loads).Obj?
    ensures loads(raw).None? && (LStrip(raw) == "" || LStrip(raw)[0] != '{') ==>
              Arguments(raw, loads) == Obj(Member("input", Str(raw), NoMembers))
  {
  }

  lemma ExtractsPrinted(o: Json, g: string, loads: string -> Option<Json>)
    requires o.Obj? && WellJson(o) && Faithful(loads)
    ensures Extract(Print(o) + g, loads) == Some(o)
  {
    CutsPrinted(o, g);
    var s := Print(o) + g;
    assert s[0] == '{' && LStrip(s) == s;
    assert s[..|Print(o)|] == Print(o);
  }

  /** An object given plainly, with chatter behind it, or wrapped once with chatter inside, is
      read as the same arguments. */
  lemma SameArguments(o: Json, g: string, loads: string -> Option<Json>)
    requires o.Obj? && WellJson(o) && Faithful(loads)
    ensures !IsWrapper(o) ==> Arguments(Print(o), loads) == o && Arguments(Print(o) + g, loads) == o
    ensures Arguments(Print(Wrap(Print(o) + g)), loads) == o
  {
    ExtractsPrinted(o, g, loads);
    var wrapped := Wrap(Print(o) + g);
    assert WellMembers(NoMembers) && WellJson(wrapped);
    assert loads(Print(wrapped)) == Some(wrapped);
  }

  /** So it is for the decoder itself. */
  lemma SameArgumentsLoaded(o: Json, g: string)
    requires o.Obj? && WellJson(o)
    ensures !IsWrapper(o) ==> Arguments(Print(o), Loads) == o && Arguments(Print(o) + g, Loads) == o
    ensures Arguments(Print(Wrap(Print(o) + g)), Loads) == o
  {
    LoadsIsFaithful();
    SameArguments(o, g, Loads);
  }
}
