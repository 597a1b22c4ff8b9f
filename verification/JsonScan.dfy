/** The scanner that cuts the leading JSON object off a model's reply. */
module JsonScan {
  import opened Records

  // ---------------------------------------------------------------- the scan

  predicate IsBlank(c: char) {
    c == ' ' || c == '\t' || c == '\n' || c == '\r'
  }

  function LStrip(s: string): (r: string)
    ensures |r| <= |s|
  {
    if s != "" && IsBlank(s[0]) then LStrip(s[1..]) else s
  }

  /** What is left of a text is what follows its leading blanks. */
  lemma {:induction false} LStripIs(blanks: string, rest: string)
    requires forall k :: 0 <= k < |blanks| ==> blanks[k] in " \t\n\r"
    requires rest != "" ==> rest[0] !in " \t\n\r"
    ensures LStrip(blanks + rest) == rest
  {
    var all := " \t\n\r";
    assert all[0] == ' ' && all[1] == '\t' && all[2] == '\n' && all[3] == '\r';
    if blanks == "" {
      assert blanks + rest == rest;
    } else {
      LStripIs(blanks[1..], rest);
      assert (blanks + rest)[1..] == blanks[1..] + rest;
    }
  }

  /** Where a scan that stands at i ends its object, if it does. */
  function Scan(s: string, i: nat, depth: int, inString: bool, escape: bool): (end: Option<nat>)
    requires i <= |s|
    ensures end.Some? ==> i < end.value <= |s|
    decreases |s| - i
  {
    if i == |s| then None
    else
      var c := s[i];
      if escape then Scan(s, i + 1, depth, inString, false)
      else if c == '\\' then Scan(s, i + 1, depth, inString, true)
      else if c == '"' then Scan(s, i + 1, depth, !inString, false)
      else if inString then Scan(s, i + 1, depth, inString, false)
      else if c == '{' then Scan(s, i + 1, depth + 1, false, false)
      else if c == '}' then
        if depth - 1 == 0 then Some(i + 1) else Scan(s, i + 1, depth - 1, false, false)
      else Scan(s, i + 1, depth, false, false)
  }

  function Cut(s: string): (end: Option<nat>)
    ensures end.Some? ==> end.value <= |s|
  {
    if s == "" || s[0] != '{' then None else Scan(s, 0, 0, false, false)
  }

  /** The loop over the characters, its depth and its two flags. */
  method FindCut(s: string) returns (end: Option<nat>)
    ensures end == Cut(s)
  {
    if s == "" || s[0] != '{' { return None; }
    var depth, inString, escape := 0, false, false;
    for i := 0 to |s|
      invariant Scan(s, 0, 0, false, false) == Scan(s, i, depth, inString, escape)
    {
      var c := s[i];
      if escape {
        escape := false;
        continue;
      }
      if c == '\\' {
        escape := true;
        continue;
      }
      if c == '"' {
        inString := !inString;
        continue;
      }
      if inString {
        continue;
      }
      if c == '{' {
        depth := depth + 1;
      } else if c == '}' {
        depth := depth - 1;
        if depth == 0 { return Some(i + 1); }
      }
    }
    end := None;
  }

  // ---------------------------------------------------------------- balanced text

  /** The inside of a string literal: a character as it is, or a backslash and any character. */
  datatype Literal = Done | Plain(c: char, rest: Literal) | Esc(c: char, rest: Literal)

  /** Text whose braces match outside its string literals. */
  datatype Text =
    | End
    | Mark(c: char, rest: Text)
    | Slash(c: char, rest: Text)
    | Quote(body: Literal, rest: Text)
    | Brace(inner: Text, rest: Text)

  predicate WellLiteral(l: Literal) {
    match l
    case Done => true
    case Plain(c, rest) => c != '"' && c != '\\' && WellLiteral(rest)
    case Esc(_, rest) => WellLiteral(rest)
  }

  predicate WellText(t: Text) {
    match t
    case End => true
    case Mark(c, rest) => c != '"' && c != '\\' && c != '{' && c != '}' && WellText(rest)
    case Slash(_, rest) => WellText(rest)
    case Quote(body, rest) => WellLiteral(body) && WellText(rest)
    case Brace(inner, rest) => WellText(inner) && WellText(rest)
  }

  function FlatLiteral(l: Literal): string {
    match l
    case Done => ""
    case Plain(c, rest) => [c] + FlatLiteral(rest)
    case Esc(c, rest) => ['\\', c] + FlatLiteral(rest)
  }

  function Flat(t: Text): string {
    match t
    case End => ""
    case Mark(c, rest) => [c] + Flat(rest)
    case Slash(c, rest) => ['\\', c] + Flat(rest)
    case Quote(body, rest) => "\"" + FlatLiteral(body) + "\"" + Flat(rest)
    case Brace(inner, rest) => "{" + Flat(inner) + "}" + Flat(rest)
  }

  /** s reads x at i. */
  predicate Reads(s: string, i: nat, x: string) {
    i + |x| <= |s| && s[i..i + |x|] == x
  }

  lemma ReadsSplit(s: string, i: nat, x: string, y: string)
    ensures Reads(s, i, x + y) <==> Reads(s, i, x) && Reads(s, i + |x|, y)
  {
    if Reads(s, i, x + y) {
      assert s[i..i + |x|] == (x + y)[..|x|] == x;
      assert s[i + |x|..i + |x| + |y|] == (x + y)[|x|..] == y;
    }
    if Reads(s, i, x) && Reads(s, i + |x|, y) {
      assert s[i..i + |x + y|] == s[i..i + |x|] + s[i + |x|..i + |x| + |y|];
    }
  }

  lemma ReadsChar(s: string, i: nat, c: char)
    ensures Reads(s, i, [c]) <==> i < |s| && s[i] == c
  {
  }

  lemma {:induction false} ScansLiteral(s: string, i: nat, depth: int, l: Literal)
    requires WellLiteral(l) && Reads(s, i, FlatLiteral(l))
    ensures Scan(s, i, depth, true, false) == Scan(s, i + |FlatLiteral(l)|, depth, true, false)
    decreases l
  {
    match l
    case Done =>
    case Plain(c, rest) =>
      ReadsSplit(s, i, [c], FlatLiteral(rest));
      ReadsChar(s, i, c);
      ScansLiteral(s, i + 1, depth, rest);
    case Esc(c, rest) =>
      ReadsSplit(s, i, ['\\', c], FlatLiteral(rest));
      assert s[i..i + 2] == ['\\', c] && s[i] == s[i..i + 2][0];
      ScansLiteral(s, i + 2, depth, rest);
  }

  /** One character of a scan inside an object, outside its strings. */
  lemma ScanStep(s: string, i: nat, depth: int)
    requires i < |s| && depth >= 1
    ensures var c := s[i];
      Scan(s, i, depth, false, false)
      == if c == '\\' then Scan(s, i + 1, depth, false, true)
         else if c == '"' then Scan(s, i + 1, depth, true, false)
         else if c == '{' then Scan(s, i + 1, depth + 1, false, false)
         else if c == '}' then if depth == 1 then Some(i + 1) else Scan(s, i + 1, depth - 1, false, false)
         else Scan(s, i + 1, depth, false, false)
  {
  }

  lemma ScanEscaped(s: string, i: nat, depth: int)
    requires i < |s|
    ensures Scan(s, i, depth, false, true) == Scan(s, i + 1, depth, false, false)
  {
  }

  lemma ScanStringEnd(s: string, i: nat, depth: int)
    requires i < |s| && s[i] == '"'
    ensures Scan(s, i, depth, true, false) == Scan(s, i + 1, depth, false, false)
  {
  }

  /** Inside an object, a scan passes over balanced text and stands where it stood, deeper nothing. */
  lemma {:induction false} ScansText(s: string, i: nat, depth: int, t: Text)
    requires depth >= 1 && WellText(t) && Reads(s, i, Flat(t))
    ensures Scan(s, i, depth, false, false) == Scan(s, i + |Flat(t)|, depth, false, false)
    decreases t
  {
    hide Reads, FlatLiteral, WellLiteral, Scan;
    match t
    case End =>
    case Mark(c, rest) =>
      ReadsSplit(s, i, [c], Flat(rest));
      ReadsChar(s, i, c);
      ScanStep(s, i, depth);
      ScansText(s, i + 1, depth, rest);
    case Slash(c, rest) =>
      SlashParts(s, i, c, Flat(rest));
      ScanStep(s, i, depth);
      ScanEscaped(s, i + 1, depth);
      ScansText(s, i + 2, depth, rest);
    case Quote(body, rest) =>
      var n := |FlatLiteral(body)|;
      QuoteParts(s, i, FlatLiteral(body), '"', '"', Flat(rest));
      ScanStep(s, i, depth);
      ScansLiteral(s, i + 1, depth, body);
      ScanStringEnd(s, i + n + 1, depth);
      ScansText(s, i + n + 2, depth, rest);
    case Brace(inner, rest) =>
      var n := |Flat(inner)|;
      QuoteParts(s, i, Flat(inner), '{', '}', Flat(rest));
      ScanStep(s, i, depth);
      ScansText(s, i + 1, depth + 1, inner);
      ScanStep(s, i + n + 1, depth + 1);
      ScansText(s, i + n + 2, depth, rest);
  }

  lemma SlashParts(s: string, i: nat, c: char, y: string)
    requires Reads(s, i, ['\\', c] + y)
    ensures i + 1 < |s| && s[i] == '\\' && Reads(s, i + 2, y)
  {
    ReadsSplit(s, i, ['\\', c], y);
    assert s[i..i + 2] == ['\\', c] && s[i] == s[i..i + 2][0];
  }

  lemma QuoteParts(s: string, i: nat, x: string, open: char, close: char, y: string)
    requires Reads(s, i, [open] + x + [close] + y)
    ensures i + 1 + |x| < |s| && s[i] == open && Reads(s, i + 1, x) && s[i + 1 + |x|] == close && Reads(s, i + |x| + 2, y)
  {
    assert [open] + x + [close] + y == [open] + (x + ([close] + y));
    hide Reads;
    ReadsSplit(s, i, [open], x + ([close] + y));
    ReadsSplit(s, i + 1, x, [close] + y);
    ReadsSplit(s, i + 1 + |x|, [close], y);
    ReadsChar(s, i, open);
    ReadsChar(s, i + 1 + |x|, close);
  }

  /** Whatever follows, the cut falls exactly where the braces close. */
  lemma CutsBalanced(inner: Text, g: string)
    requires WellText(inner)
    ensures Cut("{" + Flat(inner) + "}" + g) == Some(|Flat(inner)| + 2)
  {
    var s := "{" + Flat(inner) + "}" + g;
    assert s[0..|s|] == ['{'] + Flat(inner) + ['}'] + g;
    QuoteParts(s, 0, Flat(inner), '{', '}', g);
    ScansText(s, 1, 1, inner);
  }

  // ---------------------------------------------------------------- and cuts nothing else

  /** The literal from i up to its closing quote. */
  function ReadLiteral(s: string, i: nat): (r: Option<(Literal, nat)>)
    requires i <= |s|
    ensures r.Some? ==> i <= r.value.1 < |s| && s[r.value.1] == '"' && WellLiteral(r.value.0)
                        && s[i..r.value.1] == FlatLiteral(r.value.0)
    decreases |s| - i
  {
    if i == |s| then None
    else if s[i] == '"' then Some((Done, i))
    else if s[i] == '\\' then
      if i + 1 == |s| then None
      else
        var more := ReadLiteral(s, i + 2);
        if more.None? then None
        else
          assert s[i..more.value.1] == [s[i], s[i + 1]] + s[i + 2..more.value.1];
          Some((Esc(s[i + 1], more.value.0), more.value.1))
    else
      var more := ReadLiteral(s, i + 1);
      if more.None? then None
      else
        assert s[i..more.value.1] == [s[i]] + s[i + 1..more.value.1];
        Some((Plain(s[i], more.value.0), more.value.1))
  }

  /** The balanced text from i up to a brace that closes more than it opened. */
  function ReadText(s: string, i: nat): (r: Option<(Text, nat)>)
    requires i <= |s|
    ensures r.Some? ==> i <= r.value.1 < |s| && s[r.value.1] == '}'
    decreases |s| - i
  {
    if i == |s| then None
    else if s[i] == '}' then Some((End, i))
    else if s[i] == '\\' then
      if i + 1 == |s| then None
      else
        var more := ReadText(s, i + 2);
        if more.None? then None else Some((Slash(s[i + 1], more.value.0), more.value.1))
    else if s[i] == '"' then
      var body := ReadLiteral(s, i + 1);
      if body.None? then None
      else
        var more := ReadText(s, body.value.1 + 1);
        if more.None? then None else Some((Quote(body.value.0, more.value.0), more.value.1))
    else if s[i] == '{' then
      var inner := ReadText(s, i + 1);
      if inner.None? then None
      else
        var more := ReadText(s, inner.value.1 + 1);
        if more.None? then None else Some((Brace(inner.value.0, more.value.0), more.value.1))
    else
      var more := ReadText(s, i + 1);
      if more.None? then None else Some((Mark(s[i], more.value.0), more.value.1))
  }

  lemma Pieces(s: string, i: nat, j: nat, k: nat)
    requires i < j < k <= |s|
    ensures s[i..k] == [s[i]] + s[i + 1..j] + [s[j]] + s[j + 1..k]
    ensures s[i..k] == [s[i]] + s[i + 1..k]
  {
  }

  /** What was read from `i` is well formed and flattens to what stands there. */
  predicate ReadsBack(s: string, i: nat) {
    i <= |s| && ReadText(s, i).Some?
    && var (t, j) := ReadText(s, i).value; WellText(t) && s[i..j] == Flat(t)
  }

  lemma SlashReads(s: string, i: nat)
    requires i < |s| && s[i] == '\\' && ReadText(s, i).Some? && ReadsBack(s, i + 2)
    ensures ReadsBack(s, i)
  {
    var (t, k) := ReadText(s, i).value;
    var (more, j) := ReadText(s, i + 2).value;
    assert t == Slash(s[i + 1], more) && k == j;
    hide ReadText, ReadLiteral;
    assert s[i..k] == [s[i], s[i + 1]] + s[i + 2..k];
  }

  lemma QuoteReads(s: string, i: nat)
    requires i < |s| && s[i] == '"' && ReadText(s, i).Some?
    requires ReadsBack(s, ReadLiteral(s, i + 1).value.1 + 1)
    ensures ReadsBack(s, i)
  {
    var (t, k) := ReadText(s, i).value;
    var (body, j) := ReadLiteral(s, i + 1).value;
    var more := ReadText(s, j + 1).value.0;
    assert t == Quote(body, more);
    hide ReadText, ReadLiteral;
    Pieces(s, i, j, k);
  }

  lemma BraceReads(s: string, i: nat)
    requires i < |s| && s[i] == '{' && ReadText(s, i).Some?
    requires ReadsBack(s, i + 1) && ReadsBack(s, ReadText(s, i + 1).value.1 + 1)
    ensures ReadsBack(s, i)
  {
    var (t, k) := ReadText(s, i).value;
    var (inner, j) := ReadText(s, i + 1).value;
    var more := ReadText(s, j + 1).value.0;
    assert t == Brace(inner, more);
    hide ReadText, ReadLiteral;
    Pieces(s, i, j, k);
  }

  lemma EndReads(s: string, i: nat)
    requires i < |s| && s[i] == '}'
    ensures ReadsBack(s, i)
  {
  }

  lemma MarkReads(s: string, i: nat)
    requires i < |s| && s[i] !in {'}', '\\', '"', '{'} && ReadText(s, i).Some? && ReadsBack(s, i + 1)
    ensures ReadsBack(s, i)
  {
    var (t, k) := ReadText(s, i).value;
    var (more, j) := ReadText(s, i + 1).value;
    assert t == Mark(s[i], more) && k == j;
    hide ReadText, ReadLiteral;
    assert s[i..k] == [s[i]] + s[i + 1..k];
  }

  lemma {:induction false} ReadTextReads(s: string, i: nat)
    requires i <= |s| && ReadText(s, i).Some?
    ensures ReadsBack(s, i)
    decreases |s| - i
  {
    hide Flat, WellText, FlatLiteral, WellLiteral, ReadLiteral, ReadsBack;
    if s[i] == '}' {
      EndReads(s, i);
    } else if s[i] == '\\' {
      ReadTextReads(s, i + 2);
      SlashReads(s, i);
    } else if s[i] == '"' {
      ReadTextReads(s, ReadLiteral(s, i + 1).value.1 + 1);
      QuoteReads(s, i);
    } else if s[i] == '{' {
      ReadTextReads(s, i + 1);
      ReadTextReads(s, ReadText(s, i + 1).value.1 + 1);
      BraceReads(s, i);
    } else {
      ReadTextReads(s, i + 1);
      MarkReads(s, i);
    }
  }

  lemma {:induction false} OpenLiteralNeverEnds(s: string, i: nat, depth: int)
    requires i <= |s| && ReadLiteral(s, i).None?
    ensures Scan(s, i, depth, true, false).None?
    decreases |s| - i
  {
    if i < |s| {
      if s[i] == '\\' {
        if i + 1 < |s| { OpenLiteralNeverEnds(s, i + 2, depth); }
      } else {
        OpenLiteralNeverEnds(s, i + 1, depth);
      }
    }
  }

  lemma ScansOverLiteral(s: string, i: nat, depth: int)
    requires i < |s| && s[i] == '"' && ReadLiteral(s, i + 1).Some?
    ensures Scan(s, i, depth, false, false) == Scan(s, ReadLiteral(s, i + 1).value.1 + 1, depth, false, false)
  {
    ScansLiteral(s, i + 1, depth, ReadLiteral(s, i + 1).value.0);
  }

  lemma ScansOverBrace(s: string, i: nat, depth: int)
    requires i < |s| && s[i] == '{' && depth >= 1 && ReadText(s, i + 1).Some?
    ensures Scan(s, i, depth, false, false) == Scan(s, ReadText(s, i + 1).value.1 + 1, depth, false, false)
  {
    ReadTextReads(s, i + 1);
    var (t, j) := ReadText(s, i + 1).value;
    assert WellText(t) && s[i + 1..j] == Flat(t);
    hide ReadText, ReadLiteral, Flat, WellText;
    ScansText(s, i + 1, depth + 1, t);
  }

  lemma {:induction false} OpenTextNeverEnds(s: string, i: nat, depth: int)
    requires i <= |s| && depth >= 1 && ReadText(s, i).None?
    ensures Scan(s, i, depth, false, false).None?
    decreases |s| - i
  {
    if i < |s| {
      if s[i] == '\\' {
        if i + 1 < |s| { OpenTextNeverEnds(s, i + 2, depth); }
      } else if s[i] == '"' {
        if ReadLiteral(s, i + 1).None? {
          OpenLiteralNeverEnds(s, i + 1, depth);
        } else {
          OpenTextNeverEnds(s, ReadLiteral(s, i + 1).value.1 + 1, depth);
          ScansOverLiteral(s, i, depth);
        }
      } else if s[i] == '{' {
        if ReadText(s, i + 1).None? {
          OpenTextNeverEnds(s, i + 1, depth + 1);
        } else {
          OpenTextNeverEnds(s, ReadText(s, i + 1).value.1 + 1, depth);
          ScansOverBrace(s, i, depth);
        }
      } else {
        OpenTextNeverEnds(s, i + 1, depth);
      }
    }
  }

  predicate Encloses(s: string, n: nat, inner: Text)
    requires n <= |s|
  {
    WellText(inner) && s[..n] == "{" + Flat(inner) + "}"
  }

  lemma CutEncloses(s: string, n: nat)
    requires Cut(s) == Some(n) && n <= |s|
    ensures exists inner :: Encloses(s, n, inner)
  {
    hide Flat, WellText;
    if ReadText(s, 1).None? {
      OpenTextNeverEnds(s, 1, 1);
    } else {
      var (inner, j) := ReadText(s, 1).value;
      ReadTextReads(s, 1);
      assert WellText(inner) && s[1..j] == Flat(inner);
      hide ReadText;
      ScansText(s, 1, 1, inner);
      assert s[..n] == [s[0]] + s[1..j] + [s[j]];
      assert Encloses(s, n, inner);
    }
  }

  lemma EnclosedIsCut(s: string, n: nat, inner: Text)
    requires n <= |s| && Encloses(s, n, inner)
    ensures Cut(s) == Some(n)
  {
    hide Flat, WellText, Scan, Cut;
    CutsBalanced(inner, s[n..]);
    assert s == s[..n] + s[n..];
  }

  /** A cut at n is made exactly when the first n characters are one balanced object. */
  lemma CutsExactlyBalanced(s: string, n: nat)
    ensures Cut(s) == Some(n) <==> n <= |s| && exists inner :: Encloses(s, n, inner)
  {
    if Cut(s) == Some(n) {
      CutEncloses(s, n);
    }
    hide Cut, Encloses;
    if n <= |s| && exists inner :: Encloses(s, n, inner) {
      var inner :| Encloses(s, n, inner);
      EnclosedIsCut(s, n, inner);
    }
  }
}
