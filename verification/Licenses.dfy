/** The licence check's expression evaluator: a recursive descent that carries one shared
    position and never cuts an operand short, proved against the grammar. */
module Licenses {
  import opened Records

  // ---------------------------------------------------------------- words

  function UpperChar(c: char): char {
    if 'a' <= c <= 'z' then (c as int - 32) as char else c
  }

  function LowerChar(c: char): char {
    if 'A' <= c <= 'Z' then (c as int + 32) as char else c
  }

  function Upper(s: string): (r: string)
    ensures |r| == |s| && forall k :: 0 <= k < |s| ==> r[k] == UpperChar(s[k])
  {
    if s == "" then "" else [UpperChar(s[0])] + Upper(s[1..])
  }

  function Lower(s: string): (r: string)
    ensures |r| == |s| && forall k :: 0 <= k < |s| ==> r[k] == LowerChar(s[k])
  {
    if s == "" then "" else [LowerChar(s[0])] + Lower(s[1..])
  }

  predicate IsOperator(token: string) {
    Upper(token) == "AND" || Upper(token) == "OR" || Upper(token) == "WITH"
  }

  /** A word that can name a licence or an exception. */
  predicate IsName(token: string) {
    token != "(" && token != ")" && !IsOperator(token)
  }

  /** The id looked for: lower case, and a trailing plus read as "or later". */
  function Ident(item: string): string {
    var id := Lower(item);
    if |id| > 0 && id[|id| - 1] == '+' then id[..|id| - 1] + "-or-later" else id
  }

  // ---------------------------------------------------------------- expressions, as written

  datatype Or = One(c: And) | More(left: Or, word: string, c: And)
  datatype And = Single(a: Atom) | Both(before: And, word: string, a: Atom)
  datatype Atom = License(id: string) | Excepted(id: string, word: string, exception: string) | Group(inner: Or)

  function FlatOr(e: Or): seq<string> {
    match e
    case One(c) => FlatAnd(c)
    case More(l, w, c) => FlatOr(l) + [w] + FlatAnd(c)
  }

  function FlatAnd(e: And): seq<string> {
    match e
    case Single(a) => FlatAtom(a)
    case Both(l, w, a) => FlatAnd(l) + [w] + FlatAtom(a)
  }

  function FlatAtom(e: Atom): seq<string> {
    match e
    case License(id) => [id]
    case Excepted(id, w, x) => [id, w, x]
    case Group(inner) => ["("] + FlatOr(inner) + [")"]
  }

  predicate WellOr(e: Or) {
    match e
    case One(c) => WellAnd(c)
    case More(l, w, c) => WellOr(l) && Upper(w) == "OR" && WellAnd(c)
  }

  predicate WellAnd(e: And) {
    match e
    case Single(a) => WellAtom(a)
    case Both(l, w, a) => WellAnd(l) && Upper(w) == "AND" && WellAtom(a)
  }

  predicate WellAtom(e: Atom) {
    match e
    case License(id) => IsName(id)
    case Excepted(id, w, x) => IsName(id) && Upper(w) == "WITH" && IsName(x)
    case Group(inner) => WellOr(inner)
  }

  /** An exception only grants more: the licence decides. */
  predicate EvalOr(e: Or, allowed: set<string>) {
    match e
    case One(c) => EvalAnd(c, allowed)
    case More(l, _, c) => EvalOr(l, allowed) || EvalAnd(c, allowed)
  }

  predicate EvalAnd(e: And, allowed: set<string>) {
    match e
    case Single(a) => EvalAtom(a, allowed)
    case Both(l, _, a) => EvalAnd(l, allowed) && EvalAtom(a, allowed)
  }

  predicate EvalAtom(e: Atom, allowed: set<string>) {
    match e
    case License(id) => Ident(id) in allowed
    case Excepted(id, _, _) => Ident(id) in allowed
    case Group(inner) => EvalOr(inner, allowed)
  }

  // ---------------------------------------------------------------- what the descent reads

  type Read<T> = Option<(T, nat)>

  predicate At(tokens: seq<string>, pos: nat, word: string) {
    pos < |tokens| && Upper(tokens[pos]) == word
  }

  function ReadAtom(tokens: seq<string>, pos: nat): (r: Read<Atom>)
    ensures r.Some? ==> pos < r.value.1 <= |tokens| && WellAtom(r.value.0) && tokens[pos..r.value.1] == FlatAtom(r.value.0)
    decreases |tokens| - pos, 0
  {
    if pos >= |tokens| then None
    else if tokens[pos] == "(" then
      var inner := ReadOr(tokens, pos + 1);
      if inner.None? || inner.value.1 >= |tokens| || tokens[inner.value.1] != ")" then None
      else
        var (e, end) := inner.value;
        assert tokens[pos..end + 1] == [tokens[pos]] + tokens[pos + 1..end] + [tokens[end]];
        Some((Group(e), end + 1))
    else if !IsName(tokens[pos]) then None
    else if At(tokens, pos + 1, "WITH") then
      if pos + 2 < |tokens| && IsName(tokens[pos + 2]) then
        assert tokens[pos..pos + 3] == [tokens[pos], tokens[pos + 1], tokens[pos + 2]];
        Some((Excepted(tokens[pos], tokens[pos + 1], tokens[pos + 2]), pos + 3))
      else None
    else
      assert tokens[pos..pos + 1] == [tokens[pos]];
      Some((License(tokens[pos]), pos + 1))
  }

  function ReadAnd(tokens: seq<string>, pos: nat): (r: Read<And>)
    ensures r.Some? ==> pos < r.value.1 <= |tokens| && WellAnd(r.value.0) && tokens[pos..r.value.1] == FlatAnd(r.value.0)
    decreases |tokens| - pos, 1
  {
    var first := ReadAtom(tokens, pos);
    if first.None? then None else MoreAnds(tokens, pos, Single(first.value.0), first.value.1)
  }

  function MoreAnds(tokens: seq<string>, start: nat, soFar: And, pos: nat): (r: Read<And>)
    requires start < pos <= |tokens| && WellAnd(soFar) && tokens[start..pos] == FlatAnd(soFar)
    ensures r.Some? ==> start < r.value.1 <= |tokens| && WellAnd(r.value.0) && tokens[start..r.value.1] == FlatAnd(r.value.0)
    decreases |tokens| - pos, 0
  {
    if !At(tokens, pos, "AND") then Some((soFar, pos))
    else
      var next := ReadAtom(tokens, pos + 1);
      if next.None? then None
      else
        assert tokens[start..next.value.1] == tokens[start..pos] + [tokens[pos]] + tokens[pos + 1..next.value.1];
        MoreAnds(tokens, start, Both(soFar, tokens[pos], next.value.0), next.value.1)
  }

  function ReadOr(tokens: seq<string>, pos: nat): (r: Read<Or>)
    ensures r.Some? ==> pos < r.value.1 <= |tokens| && WellOr(r.value.0) && tokens[pos..r.value.1] == FlatOr(r.value.0)
    decreases |tokens| - pos, 3
  {
    var first := ReadAnd(tokens, pos);
    if first.None? then None else MoreOrs(tokens, pos, One(first.value.0), first.value.1)
  }

  function MoreOrs(tokens: seq<string>, start: nat, soFar: Or, pos: nat): (r: Read<Or>)
    requires start < pos <= |tokens| && WellOr(soFar) && tokens[start..pos] == FlatOr(soFar)
    ensures r.Some? ==> start < r.value.1 <= |tokens| && WellOr(r.value.0) && tokens[start..r.value.1] == FlatOr(r.value.0)
    decreases |tokens| - pos, 2
  {
    if !At(tokens, pos, "OR") then Some((soFar, pos))
    else
      var next := ReadAnd(tokens, pos + 1);
      if next.None? then None
      else
        assert tokens[start..next.value.1] == tokens[start..pos] + [tokens[pos]] + tokens[pos + 1..next.value.1];
        MoreOrs(tokens, start, More(soFar, tokens[pos], next.value.0), next.value.1)
  }

  // ---------------------------------------------------------------- the descent itself

  /** The value, or None where the source raises. */
  class Descent {
    const tokens: seq<string>
    const allowed: set<string>
    var pos: nat

    constructor (tokens: seq<string>, allowed: set<string>)
      ensures this.tokens == tokens && this.allowed == allowed && pos == 0
    {
      this.tokens, this.allowed, pos := tokens, allowed, 0;
    }

    method Primary() returns (value: Option<bool>)
      requires pos <= |tokens|
      modifies this
      ensures var r := ReadAtom(tokens, old(pos));
              if r.None? then value.None? && pos <= |tokens|
              else value == Some(EvalAtom(r.value.0, allowed)) && pos == r.value.1
      decreases |tokens| - pos, 0
    {
      hide WellAtom, FlatAtom, FlatOr, WellOr, ReadOr, EvalOr, EvalAnd;
      if pos >= |tokens| { return None; }
      var item := tokens[pos];
      pos := pos + 1;
      if item == "(" {
        value := Disjunction();
        if value.None? { return; }
        if pos >= |tokens| { return None; }
        pos := pos + 1;
        if tokens[pos - 1] != ")" { return None; }
        return;
      }
      if !IsName(item) { return None; }
      if At(tokens, pos, "WITH") {
        pos := pos + 1;
        if pos >= |tokens| { return None; }
        pos := pos + 1;
        if !IsName(tokens[pos - 1]) { return None; }
      }
      value := Some(Ident(item) in allowed);
    }

    method Conjunction() returns (value: Option<bool>)
      requires pos <= |tokens|
      modifies this
      ensures var r := ReadAnd(tokens, old(pos));
              if r.None? then value.None? && pos <= |tokens|
              else value == Some(EvalAnd(r.value.0, allowed)) && pos == r.value.1
      decreases |tokens| - pos, 1
    {
      hide ReadAnd, ReadAtom, MoreAnds, AndSoFar, Upper, EvalAtom, WellAtom, FlatAtom, FlatAnd, WellAnd;
      ghost var start := pos;
      AndBegins(tokens, start);
      value := Primary();
      if value.None? { return; }
      ghost var soFar := Single(ReadAtom(tokens, start).value.0);
      while At(tokens, pos, "AND")
        invariant pos <= |tokens| && AndSoFar(tokens, start, soFar, pos)
        invariant value == Some(EvalAnd(soFar, allowed))
        decreases |tokens| - pos
      {
        ghost var here := pos;
        pos := pos + 1;
        AndStep(tokens, start, soFar, here);
        var next := Primary();
        if next.None? { return None; }
        soFar := Both(soFar, tokens[here], ReadAtom(tokens, here + 1).value.0);
        value := Some(next.value && value.value);
      }
      AndEnds(tokens, start, soFar, pos);
    }

    method Disjunction() returns (value: Option<bool>)
      requires pos <= |tokens|
      modifies this
      ensures var r := ReadOr(tokens, old(pos));
              if r.None? then value.None? && pos <= |tokens|
              else value == Some(EvalOr(r.value.0, allowed)) && pos == r.value.1
      decreases |tokens| - pos, 2
    {
      hide ReadOr, ReadAnd, MoreOrs, OrSoFar, Upper, EvalAnd, WellAnd, FlatAnd, FlatOr, WellOr;
      ghost var start := pos;
      OrBegins(tokens, start);
      value := Conjunction();
      if value.None? { return; }
      ghost var soFar := One(ReadAnd(tokens, start).value.0);
      while At(tokens, pos, "OR")
        invariant pos <= |tokens| && OrSoFar(tokens, start, soFar, pos)
        invariant value == Some(EvalOr(soFar, allowed))
        decreases |tokens| - pos
      {
        ghost var here := pos;
        pos := pos + 1;
        OrStep(tokens, start, soFar, here);
        var next := Conjunction();
        if next.None? { return None; }
        soFar := More(soFar, tokens[here], ReadAnd(tokens, here + 1).value.0);
        value := Some(next.value || value.value);
      }
      OrEnds(tokens, start, soFar, pos);
    }
  }

  /** A loop that has read soFar is where the reading of the whole is. */
  ghost predicate AndSoFar(tokens: seq<string>, start: nat, soFar: And, pos: nat) {
    start < pos <= |tokens| && WellAnd(soFar) && tokens[start..pos] == FlatAnd(soFar)
    && ReadAnd(tokens, start) == MoreAnds(tokens, start, soFar, pos)
  }

  ghost predicate OrSoFar(tokens: seq<string>, start: nat, soFar: Or, pos: nat) {
    start < pos <= |tokens| && WellOr(soFar) && tokens[start..pos] == FlatOr(soFar)
    && ReadOr(tokens, start) == MoreOrs(tokens, start, soFar, pos)
  }

  /** A loop starts where its first operand was read. */
  lemma AndBegins(tokens: seq<string>, start: nat)
    ensures var first := ReadAtom(tokens, start);
            if first.None? then ReadAnd(tokens, start).None?
            else AndSoFar(tokens, start, Single(first.value.0), first.value.1)
  {
    hide ReadAtom;
  }

  lemma OrBegins(tokens: seq<string>, start: nat)
    ensures var first := ReadAnd(tokens, start);
            if first.None? then ReadOr(tokens, start).None?
            else OrSoFar(tokens, start, One(first.value.0), first.value.1)
  {
    hide ReadAnd;
  }

  lemma AndStep(tokens: seq<string>, start: nat, soFar: And, pos: nat)
    requires AndSoFar(tokens, start, soFar, pos) && At(tokens, pos, "AND")
    ensures var next := ReadAtom(tokens, pos + 1);
            if next.None? then ReadAnd(tokens, start).None?
            else AndSoFar(tokens, start, Both(soFar, tokens[pos], next.value.0), next.value.1)
  {
    var next := ReadAtom(tokens, pos + 1);
    if next.Some? {
      assert tokens[start..next.value.1] == tokens[start..pos] + [tokens[pos]] + tokens[pos + 1..next.value.1];
    }
  }

  lemma OrStep(tokens: seq<string>, start: nat, soFar: Or, pos: nat)
    requires OrSoFar(tokens, start, soFar, pos) && At(tokens, pos, "OR")
    ensures var next := ReadAnd(tokens, pos + 1);
            if next.None? then ReadOr(tokens, start).None?
            else OrSoFar(tokens, start, More(soFar, tokens[pos], next.value.0), next.value.1)
  {
    var next := ReadAnd(tokens, pos + 1);
    if next.Some? {
      assert tokens[start..next.value.1] == tokens[start..pos] + [tokens[pos]] + tokens[pos + 1..next.value.1];
    }
  }

  lemma AndEnds(tokens: seq<string>, start: nat, soFar: And, pos: nat)
    requires AndSoFar(tokens, start, soFar, pos) && !At(tokens, pos, "AND")
    ensures ReadAnd(tokens, start) == Some((soFar, pos))
  {
  }

  lemma OrEnds(tokens: seq<string>, start: nat, soFar: Or, pos: nat)
    requires OrSoFar(tokens, start, soFar, pos) && !At(tokens, pos, "OR")
    ensures ReadOr(tokens, start) == Some((soFar, pos))
  {
  }

  /** What the tokens say under the allowed ids, or None where they are no expression. */
  function Meaning(tokens: seq<string>, allowed: set<string>): Option<bool> {
    var r := ReadOr(tokens, 0);
    if r.None? || r.value.1 != |tokens| then None else Some(EvalOr(r.value.0, allowed))
  }

  method SatisfiableTokens(tokens: seq<string>, allowed: set<string>) returns (value: Option<bool>)
    ensures value == Meaning(tokens, allowed)
  {
    var d := new Descent(tokens, allowed);
    value := d.Disjunction();
    if value.Some? && d.pos != |tokens| { value := None; }
  }

  // ---------------------------------------------------------------- exactly the grammar

  /** The tokens from pos on begin with these. */
  predicate Starts(tokens: seq<string>, pos: nat, words: seq<string>) {
    pos + |words| <= |tokens| && tokens[pos..pos + |words|] == words
  }

  lemma StartsSplit(tokens: seq<string>, pos: nat, x: seq<string>, y: seq<string>)
    ensures Starts(tokens, pos, x + y) <==> Starts(tokens, pos, x) && Starts(tokens, pos + |x|, y)
  {
    if Starts(tokens, pos, x + y) {
      assert tokens[pos..pos + |x|] == (x + y)[..|x|] == x;
      assert tokens[pos + |x|..pos + |x| + |y|] == (x + y)[|x|..] == y;
    }
    if Starts(tokens, pos, x) && Starts(tokens, pos + |x|, y) {
      assert tokens[pos..pos + |x + y|] == tokens[pos..pos + |x|] + tokens[pos + |x|..pos + |x| + |y|];
    }
  }

  lemma StartsOne(tokens: seq<string>, pos: nat, w: string)
    ensures Starts(tokens, pos, [w]) <==> pos < |tokens| && tokens[pos] == w
  {
  }

  lemma ParenthesesAreNoOperators()
    ensures !IsOperator("(") && !IsOperator(")")
  {
    assert |Upper("(")| == 1 && |Upper(")")| == 1;
  }

  /** Written out anywhere, an atom not followed by WITH is read back. */
  lemma {:induction false} ReadsAtom(tokens: seq<string>, pos: nat, e: Atom)
    requires WellAtom(e) && Starts(tokens, pos, FlatAtom(e)) && !At(tokens, pos + |FlatAtom(e)|, "WITH")
    ensures ReadAtom(tokens, pos) == Some((e, pos + |FlatAtom(e)|))
    decreases e
  {
    match e
    case License(id) => StartsOne(tokens, pos, id);
    case Excepted(id, w, x) => ReadsExcepted(tokens, pos, id, w, x);
    case Group(inner) =>
      GroupParts(tokens, pos, inner);
      ReadsOr(tokens, pos + 1, inner);
  }

  lemma ReadsExcepted(tokens: seq<string>, pos: nat, id: string, w: string, x: string)
    requires IsName(id) && Upper(w) == "WITH" && IsName(x) && Starts(tokens, pos, [id, w, x])
    ensures ReadAtom(tokens, pos) == Some((Excepted(id, w, x), pos + 3))
  {
    assert tokens[pos] == tokens[pos..pos + 3][0] == id;
    assert tokens[pos + 1] == tokens[pos..pos + 3][1] == w;
    assert tokens[pos + 2] == tokens[pos..pos + 3][2] == x;
    hide Upper;
  }

  lemma GroupParts(tokens: seq<string>, pos: nat, inner: Or)
    requires Starts(tokens, pos, FlatAtom(Group(inner)))
    ensures pos < |tokens| && tokens[pos] == "(" && Starts(tokens, pos + 1, FlatOr(inner))
    ensures var end := pos + 1 + |FlatOr(inner)|;
            end < |tokens| && tokens[end] == ")" && !IsOperator(tokens[end])
  {
    ParenthesesAreNoOperators();
    var flat := FlatOr(inner);
    assert FlatAtom(Group(inner)) == ["("] + (flat + [")"]);
    hide FlatOr, Starts;
    StartsSplit(tokens, pos, ["("], flat + [")"]);
    StartsSplit(tokens, pos + 1, flat, [")"]);
    StartsOne(tokens, pos, "(");
    StartsOne(tokens, pos + 1 + |flat|, ")");
  }

  /** A chain written out: what comes before the word, the word, what comes after. */
  lemma ChainParts(tokens: seq<string>, pos: nat, x: seq<string>, w: string, y: seq<string>)
    requires Starts(tokens, pos, x + [w] + y)
    ensures Starts(tokens, pos, x) && pos + |x| < |tokens| && tokens[pos + |x|] == w
    ensures Starts(tokens, pos + |x| + 1, y)
  {
    assert x + [w] + y == x + ([w] + y);
    hide Starts;
    StartsSplit(tokens, pos, x, [w] + y);
    StartsSplit(tokens, pos + |x|, [w], y);
    StartsOne(tokens, pos + |x|, w);
  }

  lemma {:induction false} ReadsAnd(tokens: seq<string>, pos: nat, e: And)
    requires WellAnd(e) && Starts(tokens, pos, FlatAnd(e)) && !At(tokens, pos + |FlatAnd(e)|, "WITH")
    ensures AndSoFar(tokens, pos, e, pos + |FlatAnd(e)|)
    decreases e
  {
    hide Upper, FlatAtom, ReadAtom, WellAtom, Starts, AndSoFar;
    match e
    case Single(a) =>
      ReadsAtom(tokens, pos, a);
      AndBegins(tokens, pos);
    case Both(l, w, a) =>
      var n := |FlatAnd(l)|;
      ChainParts(tokens, pos, FlatAnd(l), w, FlatAtom(a));
      assert At(tokens, pos + n, "AND") && !At(tokens, pos + n, "WITH");
      assert pos + |FlatAnd(e)| == pos + n + 1 + |FlatAtom(a)|;
      hide FlatAnd;
      ReadsAnd(tokens, pos, l);
      ReadsAtom(tokens, pos + n + 1, a);
      AndStep(tokens, pos, l, pos + n);
  }

  lemma {:induction false} ReadsOrSoFar(tokens: seq<string>, pos: nat, e: Or)
    requires WellOr(e) && Starts(tokens, pos, FlatOr(e))
    requires !At(tokens, pos + |FlatOr(e)|, "WITH") && !At(tokens, pos + |FlatOr(e)|, "AND")
    ensures OrSoFar(tokens, pos, e, pos + |FlatOr(e)|)
    decreases e, 0
  {
    hide Upper, FlatAnd, ReadAnd, ReadOr, WellAnd, Starts, AndSoFar, OrSoFar;
    match e
    case One(c) =>
      ReadsAnd(tokens, pos, c);
      AndEnds(tokens, pos, c, pos + |FlatAnd(c)|);
      OrBegins(tokens, pos);
    case More(l, w, c) =>
      var n := |FlatOr(l)|;
      ChainParts(tokens, pos, FlatOr(l), w, FlatAnd(c));
      assert At(tokens, pos + n, "OR") && !At(tokens, pos + n, "WITH") && !At(tokens, pos + n, "AND");
      assert pos + |FlatOr(e)| == pos + n + 1 + |FlatAnd(c)|;
      hide FlatOr;
      ReadsOrSoFar(tokens, pos, l);
      ReadsAnd(tokens, pos + n + 1, c);
      AndEnds(tokens, pos + n + 1, c, pos + |FlatOr(e)|);
      OrStep(tokens, pos, l, pos + n);
  }

  lemma {:induction false} ReadsOr(tokens: seq<string>, pos: nat, e: Or)
    requires WellOr(e) && Starts(tokens, pos, FlatOr(e))
    requires pos + |FlatOr(e)| < |tokens| ==> !IsOperator(tokens[pos + |FlatOr(e)|])
    ensures ReadOr(tokens, pos) == Some((e, pos + |FlatOr(e)|))
    decreases e, 1
  {
    ReadsOrSoFar(tokens, pos, e);
    OrEnds(tokens, pos, e, pos + |FlatOr(e)|);
  }

  /** The evaluator accepts exactly the expressions, and says of each what it means. */
  lemma AcceptsExactlyExpressions(tokens: seq<string>, allowed: set<string>)
    ensures Meaning(tokens, allowed).Some? <==> exists e :: WellOr(e) && FlatOr(e) == tokens
    ensures forall e :: WellOr(e) && FlatOr(e) == tokens ==> Meaning(tokens, allowed) == Some(EvalOr(e, allowed))
  {
    forall e | WellOr(e) && FlatOr(e) == tokens ensures Meaning(tokens, allowed) == Some(EvalOr(e, allowed)) {
      assert tokens[0..|tokens|] == tokens;
      ReadsOr(tokens, 0, e);
    }
    if Meaning(tokens, allowed).Some? {
      var (e, end) := ReadOr(tokens, 0).value;
      assert tokens[0..end] == tokens && FlatOr(e) == tokens;
    }
  }

  /** Nothing about the reading, errors included, depends on what is allowed; and allowing more
      never withdraws a yes. */
  lemma AllowingMoreIsMonotone(tokens: seq<string>, allowed: set<string>, more: set<string>)
    requires allowed <= more
    ensures Meaning(tokens, allowed).None? <==> Meaning(tokens, more).None?
    ensures Meaning(tokens, allowed) == Some(true) ==> Meaning(tokens, more) == Some(true)
  {
    if Meaning(tokens, allowed) == Some(true) { EvalOrGrows(ReadOr(tokens, 0).value.0, allowed, more); }
  }

  lemma {:induction false} EvalOrGrows(e: Or, allowed: set<string>, more: set<string>)
    requires allowed <= more && EvalOr(e, allowed)
    ensures EvalOr(e, more)
    decreases e
  {
    match e
    case One(c) => EvalAndGrows(c, allowed, more);
    case More(l, _, c) => if EvalOr(l, allowed) { EvalOrGrows(l, allowed, more); } else { EvalAndGrows(c, allowed, more); }
  }

  lemma {:induction false} EvalAndGrows(e: And, allowed: set<string>, more: set<string>)
    requires allowed <= more && EvalAnd(e, allowed)
    ensures EvalAnd(e, more)
    decreases e
  {
    match e
    case Single(a) => if a.Group? { EvalOrGrows(a.inner, allowed, more); }
    case Both(l, _, a) =>
      EvalAndGrows(l, allowed, more);
      if a.Group? { EvalOrGrows(a.inner, allowed, more); }
  }

  // ---------------------------------------------------------------- expression trees

  /** Annex D of the SPDX Specification 2.3: OR below AND below WITH. */
  datatype Tree = Id(id: string) | With(id: string, exception: string) | AndT(l: Tree, r: Tree) | OrT(l: Tree, r: Tree)

  predicate WellTree(t: Tree) {
    match t
    case Id(id) => IsName(id)
    case With(id, x) => IsName(id) && IsName(x)
    case AndT(l, r) => WellTree(l) && WellTree(r)
    case OrT(l, r) => WellTree(l) && WellTree(r)
  }

  predicate Holds(t: Tree, allowed: set<string>) {
    match t
    case Id(id) => Ident(id) in allowed
    case With(id, _) => Ident(id) in allowed
    case AndT(l, r) => Holds(l, allowed) && Holds(r, allowed)
    case OrT(l, r) => Holds(l, allowed) || Holds(r, allowed)
  }

  /** Written with parentheses only where the tree binds looser than its place. */
  function AsOr(t: Tree): Or
    decreases t, 2
  {
    if t.OrT? then More(AsOr(t.l), "OR", AsAnd(t.r)) else One(AsAnd(t))
  }

  function AsAnd(t: Tree): And
    decreases t, 1
  {
    if t.AndT? then Both(AsAnd(t.l), "AND", AsAtom(t.r)) else Single(AsAtom(t))
  }

  function AsAtom(t: Tree): Atom
    decreases t, 0
  {
    match t
    case Id(id) => License(id)
    case With(id, x) => Excepted(id, "WITH", x)
    case AndT(l, r) => Group(One(Both(AsAnd(l), "AND", AsAtom(r))))
    case OrT(l, r) => Group(More(AsOr(l), "OR", AsAnd(r)))
  }

  function Printed(t: Tree): seq<string> {
    FlatOr(AsOr(t))
  }

  lemma {:induction false} WrittenMeansTheTree(t: Tree, allowed: set<string>)
    requires WellTree(t)
    ensures WellOr(AsOr(t)) && WellAnd(AsAnd(t)) && WellAtom(AsAtom(t))
    ensures EvalOr(AsOr(t), allowed) == Holds(t, allowed)
    ensures EvalAnd(AsAnd(t), allowed) == Holds(t, allowed)
    ensures EvalAtom(AsAtom(t), allowed) == Holds(t, allowed)
    decreases t
  {
    assert Upper("OR") == "OR" && Upper("AND") == "AND" && Upper("WITH") == "WITH";
    assert !t.AndT? ==> AsAnd(t) == Single(AsAtom(t));
    assert !t.OrT? ==> AsOr(t) == One(AsAnd(t));
    assert !t.AndT? ==> EvalAnd(AsAnd(t), allowed) == EvalAtom(AsAtom(t), allowed);
    assert !t.OrT? ==> EvalOr(AsOr(t), allowed) == EvalAnd(AsAnd(t), allowed);
    match t
    case Id(_) =>
    case With(_, _) =>
    case AndT(l, r) => WrittenMeansTheTree(l, allowed); WrittenMeansTheTree(r, allowed);
    case OrT(l, r) => WrittenMeansTheTree(l, allowed); WrittenMeansTheTree(r, allowed);
  }

  /** Every tree, printed and evaluated, is satisfied exactly when the tree is. */
  lemma PrintedMeansTheTree(t: Tree, allowed: set<string>)
    requires WellTree(t)
    ensures Meaning(Printed(t), allowed) == Some(Holds(t, allowed))
  {
    WrittenMeansTheTree(t, allowed);
    AcceptsExactlyExpressions(Printed(t), allowed);
  }

  // ---------------------------------------------------------------- from text to tokens

  predicate IsSpace(c: char) {
    c == ' ' || c == '\t' || c == '\n' || c == '\r'
  }

  predicate WordChar(c: char) {
    'A' <= c <= 'Z' || 'a' <= c <= 'z' || '0' <= c <= '9' || c == '.' || c == '+' || c == '-' || c == ':'
  }

  predicate IsWord(w: string) {
    w == "(" || w == ")" || (w != "" && forall k :: 0 <= k < |w| ==> WordChar(w[k]))
  }

  function Skip(s: string, pos: nat): (p: nat)
    requires pos <= |s|
    ensures pos <= p <= |s| && (p < |s| ==> !IsSpace(s[p]))
    ensures forall k :: pos <= k < p ==> IsSpace(s[k])
    decreases |s| - pos
  {
    if pos < |s| && IsSpace(s[pos]) then Skip(s, pos + 1) else pos
  }

  function RunEnd(s: string, pos: nat): (p: nat)
    requires pos <= |s|
    ensures pos <= p <= |s| && (p < |s| ==> !WordChar(s[p]))
    ensures forall k :: pos <= k < p ==> WordChar(s[k])
    decreases |s| - pos
  {
    if pos < |s| && WordChar(s[pos]) then RunEnd(s, pos + 1) else pos
  }

  /** The end of the longest token at pos; pos itself when there is none. */
  function TokenEnd(s: string, pos: nat): (p: nat)
    requires pos < |s|
    ensures pos <= p <= |s| && (p > pos ==> IsWord(s[pos..p]))
  {
    if s[pos] == '(' || s[pos] == ')' then pos + 1 else RunEnd(s, pos)
  }

  /** All tokens from pos on, spaces between them dropped; None where a character fits none. */
  function Lex(s: string, pos: nat): (r: Option<seq<string>>)
    requires pos <= |s|
    ensures r.Some? ==> forall w :: w in r.value ==> IsWord(w)
    decreases |s| - pos
  {
    var p := Skip(s, pos);
    if p == |s| then Some([])
    else
      var end := TokenEnd(s, p);
      if end == p then None
      else
        var rest := Lex(s, end);
        if rest.None? then None else Some([s[p..end]] + rest.value)
  }

  function Before(out: seq<string>, rest: Option<seq<string>>): Option<seq<string>> {
    if rest.None? then None else Some(out + rest.value)
  }

  lemma Prefixed(out: seq<string>, rest: Option<seq<string>>)
    requires out == []
    ensures Before(out, rest) == rest
  {
    assert rest.Some? ==> [] + rest.value == rest.value;
  }

  lemma Appended(out: seq<string>, token: string, rest: Option<seq<string>>)
    ensures Before(out, Before([token], rest)) == Before(out + [token], rest)
  {
    assert rest.Some? ==> out + ([token] + rest.value) == (out + [token]) + rest.value;
  }

  lemma LexSkips(text: string, p: nat, q: nat)
    requires p <= |text| && q <= |text| && Skip(text, p) == Skip(text, q)
    ensures Lex(text, p) == Lex(text, q)
  {
  }

  lemma LexNext(text: string, pos: nat)
    requires pos < |text| && Skip(text, pos) == pos
    ensures var end := TokenEnd(text, pos);
      Lex(text, pos) == if end == pos then None else Before([text[pos..end]], Lex(text, end))
  {
  }

  lemma LexEnds(text: string)
    ensures Lex(text, |text|) == Some([])
  {
  }

  /** The tokens of a text; None for an empty one too. */
  method Tokens(text: string) returns (r: Option<seq<string>>)
    ensures r == if Lex(text, 0) == Some([]) then None else Lex(text, 0)
  {
    hide Lex, IsWord, TokenEnd;
    var out: seq<string> := [];
    var pos := 0;
    while pos < |text| && IsSpace(text[pos])
      invariant pos <= |text| && Skip(text, 0) == Skip(text, pos)
    {
      pos := pos + 1;
    }
    LexSkips(text, 0, pos);
    Prefixed(out, Lex(text, pos));
    while pos < |text|
      invariant pos <= |text| && Skip(text, pos) == pos
      invariant Lex(text, 0) == Before(out, Lex(text, pos))
      decreases |text| - pos
    {
      var end := TokenEnd(text, pos);
      LexNext(text, pos);
      if end == pos { return None; }
      Appended(out, text[pos..end], Lex(text, end));
      out := out + [text[pos..end]];
      pos := end;
      while pos < |text| && IsSpace(text[pos])
        invariant end <= pos <= |text| && Skip(text, end) == Skip(text, pos)
      {
        pos := pos + 1;
      }
      LexSkips(text, end, pos);
    }
    LexEnds(text);
    assert Lex(text, pos) == Some([]) && out + [] == out;
    r := if out == [] then None else Some(out);
  }

  /** Satisfied, not satisfied, or None where the source raises. */
  function Verdict(text: string, allowed: set<string>): Option<bool> {
    var tokens := Lex(text, 0);
    if tokens.None? || tokens.value == [] then None else Meaning(tokens.value, allowed)
  }

  method Satisfiable(text: string, allowed: set<string>) returns (value: Option<bool>)
    ensures value == Verdict(text, allowed)
  {
    var tokens := Tokens(text);
    if tokens.None? { return None; }
    value := SatisfiableTokens(tokens.value, allowed);
  }

  function Spaced(words: seq<string>): string {
    if words == [] then "" else words[0] + " " + Spaced(words[1..])
  }

  /** A word with a space after it is the next token. */
  lemma LexOneWord(s: string, p: nat, w: string)
    requires IsWord(w) && p + |w| < |s| && s[p..p + |w|] == w && s[p + |w|] == ' '
    ensures Lex(s, p) == var rest := Lex(s, p + |w| + 1); if rest.None? then None else Some([w] + rest.value)
  {
    hide *;
    var end := p + |w|;
    WordEnds(s, p, w);
    SkipsOne(s, end);
    SkipsNone(s, p);
    LexNext(s, p);
    LexSkips(s, end, end + 1);
    BeforeOne(w, Lex(s, end + 1));
  }

  lemma BeforeOne(w: string, rest: Option<seq<string>>)
    ensures Before([w], rest) == if rest.None? then None else Some([w] + rest.value)
  {
  }

  lemma SkipsOne(s: string, p: nat)
    requires p < |s| && s[p] == ' '
    ensures Skip(s, p) == Skip(s, p + 1)
  {
  }

  lemma SkipsNone(s: string, p: nat)
    requires p < |s| && !IsSpace(s[p])
    ensures Skip(s, p) == p
  {
  }

  lemma WordEnds(s: string, p: nat, w: string)
    requires IsWord(w) && p + |w| < |s| && s[p..p + |w|] == w && s[p + |w|] == ' '
    ensures w != "" && TokenEnd(s, p) == p + |w| && !IsSpace(s[p])
  {
    hide RunEnd;
    var end := p + |w|;
    assert s[p] == s[p..end][0] == w[0];
    if w != "(" && w != ")" {
      assert forall k :: p <= k < end ==> s[k] == s[p..end][k - p] == w[k - p];
      RunStopsAt(s, p, end);
    }
  }

  /** Words written with spaces between them are read back as written. */
  lemma {:induction false} LexOfSpaced(before: string, words: seq<string>)
    requires forall w :: w in words ==> IsWord(w)
    ensures Lex(before + Spaced(words), |before|) == Some(words)
    decreases |words|
  {
    hide *;
    if words == [] {
      SpacedNone(before);
      LexEnds(before);
    } else {
      var w, rest := words[0], Spaced(words[1..]);
      SpacedOne(words);
      SpacedParts(before, w, rest);
      assert w in words;
      LexOneWord(before + Spaced(words), |before|, w);
      assert forall v :: v in words[1..] ==> v in words;
      LexOfSpaced(before + w + " ", words[1..]);
      assert [w] + words[1..] == words;
    }
  }

  lemma SpacedNone(before: string)
    ensures before + Spaced([]) == before
  {
  }

  lemma SpacedOne(words: seq<string>)
    requires words != []
    ensures Spaced(words) == words[0] + " " + Spaced(words[1..])
  {
  }

  lemma SpacedParts(before: string, w: string, rest: string)
    ensures var s := before + (w + " " + rest);
      && s == (before + w + " ") + rest && |before + w + " "| == |before| + |w| + 1 <= |s|
      && s[|before|..|before| + |w|] == w && s[|before| + |w|] == ' '
  {
  }

  lemma RunStopsAt(s: string, pos: nat, end: nat)
    requires pos <= end < |s| && !WordChar(s[end])
    requires forall k :: pos <= k < end ==> WordChar(s[k])
    ensures RunEnd(s, pos) == end
    decreases end - pos
  {
    if pos < end { RunStopsAt(s, pos + 1, end); }
  }

  /** From text to verdict: a tree written out with spaces is judged as the tree. */
  lemma WrittenTreeIsJudged(t: Tree, allowed: set<string>)
    requires WellTree(t) && forall w :: w in Printed(t) ==> IsWord(w)
    ensures Verdict(Spaced(Printed(t)), allowed) == Some(Holds(t, allowed))
  {
    LexOfSpaced("", Printed(t));
    assert "" + Spaced(Printed(t)) == Spaced(Printed(t));
    PrintedMeansTheTree(t, allowed);
    WrittenMeansTheTree(t, allowed);
    SomethingWritten(AsOr(t));
  }

  lemma SomethingWritten(e: Or)
    ensures FlatOr(e) != []
  {
    match e
    case One(c) => if c.Single? { assert |FlatAtom(c.a)| > 0; }
    case More(_, _, _) =>
  }

  // ---------------------------------------------------------------- what the words are, letter by letter

  const SMALL := "abcdefghijklmnopqrstuvwxyz"
  const CAPITAL := "ABCDEFGHIJKLMNOPQRSTUVWXYZ"

  predicate IsCapital(small: char, capital: char) {
    exists k :: 0 <= k < |SMALL| && SMALL[k] == small && CAPITAL[k] == capital
  }

  predicate SameLetter(c: char, d: char) {
    c == d || IsCapital(c, d) || IsCapital(d, c)
  }

  /** The same word but for the case of its letters. */
  predicate SameWord(v: string, w: string) {
    |v| == |w| && forall k :: 0 <= k < |w| ==> SameLetter(v[k], w[k])
  }

  lemma CapitalIff(c: char, d: char)
    ensures IsCapital(c, d) <==> 'a' <= c <= 'z' && d as int == c as int - 32
  {
    assert forall k :: 0 <= k < |SMALL| ==> SMALL[k] as int == 97 + k && CAPITAL[k] as int == 65 + k;
    if 'a' <= c <= 'z' && d as int == c as int - 32 {
      var k := c as int - 97;
      assert SMALL[k] as int == c as int && CAPITAL[k] as int == d as int;
    }
  }

  /** Each letter has its other case, and nothing else changes. */
  lemma CaseOfLetters(c: char)
    ensures if exists d :: IsCapital(c, d) then IsCapital(c, UpperChar(c)) else UpperChar(c) == c
    ensures if exists d :: IsCapital(d, c) then IsCapital(LowerChar(c), c) else LowerChar(c) == c
  {
    forall d
      ensures IsCapital(c, d) <==> 'a' <= c <= 'z' && d as int == c as int - 32
      ensures IsCapital(d, c) <==> 'a' <= d <= 'z' && c as int == d as int - 32
    {
      CapitalIff(c, d);
      CapitalIff(d, c);
    }
    hide IsCapital;
    if 'a' <= c <= 'z' { assert IsCapital(c, UpperChar(c)); }
    if 'A' <= c <= 'Z' { assert IsCapital(LowerChar(c), c); }
  }

  lemma UpperIff(v: string, w: string)
    requires forall k :: 0 <= k < |w| ==> 'A' <= w[k] <= 'Z'
    ensures Upper(v) == w <==> SameWord(v, w)
  {
    forall k | 0 <= k < |w| && k < |v|
      ensures UpperChar(v[k]) == w[k] <==> SameLetter(v[k], w[k])
    {
      UpperLetterIff(v[k], w[k]);
    }
    hide SameLetter, UpperChar;
    if SameWord(v, w) { assert Upper(v) == w; }
  }

  lemma UpperLetterIff(c: char, d: char)
    requires 'A' <= d <= 'Z'
    ensures UpperChar(c) == d <==> SameLetter(c, d)
  {
    CapitalIff(c, d);
    CapitalIff(d, c);
    hide IsCapital;
  }

  /** The operators are the three words in any case, and a name is any other word but a parenthesis. */
  lemma NameIff(token: string)
    ensures IsName(token) <==> token != "(" && token != ")" && !SameWord(token, "AND") && !SameWord(token, "OR")
                               && !SameWord(token, "WITH")
  {
    UpperIff(token, "AND");
    UpperIff(token, "OR");
    UpperIff(token, "WITH");
  }

  /** A word is judged by its letters in small, a plus at its end read as "or later". */
  lemma IdentIs(item: string)
    ensures var later := |item| > 0 && item[|item| - 1] == '+';
            var n := if later then |item| - 1 else |item|;
      && Ident(item)[..n] == Lower(item[..n])
      && Ident(item)[n..] == (if later then "-or-later" else "")
      && |Lower(item[..n])| == n
      && forall k :: 0 <= k < n ==>
           if exists c :: IsCapital(c, item[k]) then IsCapital(Lower(item[..n])[k], item[k])
           else Lower(item[..n])[k] == item[k]
  {
    var later := |item| > 0 && item[|item| - 1] == '+';
    var n := if later then |item| - 1 else |item|;
    forall k | 0 <= k < n
      ensures if exists c :: IsCapital(c, item[k]) then IsCapital(Lower(item[..n])[k], item[k])
              else Lower(item[..n])[k] == item[k]
    {
      CaseOfLetters(item[k]);
    }
    assert |item| > 0 ==> (Lower(item)[|item| - 1] == '+' <==> later);
    assert Lower(item)[..n] == Lower(item[..n]);
  }

  // ---------------------------------------------------------------- what the words of a text are

  const BLANKS := " \t\n\r"
  const WORD_CHARS := SMALL + CAPITAL + "0123456789.+-:"

  predicate AllOf(s: string, chars: string) {
    forall k :: 0 <= k < |s| ==> s[k] in chars
  }

  /** The text is these words, each a parenthesis or a run of word characters that ends where the run does, with any
    * blanks about them. */
  ghost predicate LaidOut(text: string, words: seq<string>)
    decreases |words|
  {
    if words == [] then AllOf(text, BLANKS)
    else exists blanks, rest :: LaidFirst(text, words, blanks, rest)
  }

  ghost predicate LaidFirst(text: string, words: seq<string>, blanks: string, rest: string)
    requires words != []
    decreases |words|, 0
  {
    && text == blanks + words[0] + rest && AllOf(blanks, BLANKS)
    && (words[0] == "(" || words[0] == ")"
        || (words[0] != "" && AllOf(words[0], WORD_CHARS) && (rest != "" ==> rest[0] !in WORD_CHARS)))
    && LaidOut(rest, words[1..])
  }

  lemma InSmall(c: char)
    ensures c in SMALL <==> 'a' <= c <= 'z'
    ensures c in CAPITAL <==> 'A' <= c <= 'Z'
  {
    assert forall k :: 0 <= k < |SMALL| ==> SMALL[k] as int == 97 + k && CAPITAL[k] as int == 65 + k;
    if 'a' <= c <= 'z' { assert SMALL[c as int - 97] as int == c as int; }
    if 'A' <= c <= 'Z' { assert CAPITAL[c as int - 65] as int == c as int; }
  }

  lemma CharsIff(c: char)
    ensures IsSpace(c) <==> c in BLANKS
    ensures WordChar(c) <==> c in WORD_CHARS
  {
    InSmall(c);
    var others := "0123456789.+-:";
    assert forall k :: 0 <= k < 10 ==> others[k] as int == 48 + k;
    if '0' <= c <= '9' { assert others[c as int - 48] as int == c as int; }
    assert BLANKS[0] == ' ' && BLANKS[1] == '\t' && BLANKS[2] == '\n' && BLANKS[3] == '\r';
    assert others[10] == '.' && others[11] == '+' && others[12] == '-' && others[13] == ':';
    assert c in WORD_CHARS <==> c in SMALL || c in CAPITAL || c in others;
  }

  lemma BlanksIff(s: string, from: nat, to: nat)
    requires from <= to <= |s|
    ensures AllOf(s[from..to], BLANKS) <==> forall k :: from <= k < to ==> IsSpace(s[k])
    ensures AllOf(s[from..to], WORD_CHARS) <==> forall k :: from <= k < to ==> WordChar(s[k])
  {
    forall c
      ensures (IsSpace(c) <==> c in BLANKS) && (WordChar(c) <==> c in WORD_CHARS)
    {
      CharsIff(c);
    }
    hide IsSpace, WordChar;
    assert forall k :: from <= k < to ==> s[k] == s[from..to][k - from];
    assert forall k :: 0 <= k < to - from ==> s[from..to][k] == s[from + k];
  }

  /** The first token, as text: where it ends, and that it goes on no further. */
  lemma TokenIs(s: string, p: nat, end: nat)
    requires p < end <= |s|
    ensures TokenEnd(s, p) == end
            <==> s[p..end] == "(" || s[p..end] == ")"
                 || (s[p] != '(' && s[p] != ')' && AllOf(s[p..end], WORD_CHARS) && (end < |s| ==> !WordChar(s[end])))
  {
    BlanksIff(s, p, end);
    hide AllOf;
    if s[p] == '(' || s[p] == ')' {
      assert s[p..end][0] == s[p];
      assert end == p + 1 ==> s[p..end] == [s[p]];
    } else {
      assert s[p..end][0] == s[p];
      if end < |s| && !WordChar(s[end]) && forall k :: p <= k < end ==> WordChar(s[k]) { RunStopsAt(s, p, end); }
      if end == |s| && forall k :: p <= k < end ==> WordChar(s[k]) { RunToTheEnd(s, p); }
    }
  }

  lemma RunToTheEnd(s: string, pos: nat)
    requires pos <= |s| && forall k :: pos <= k < |s| ==> WordChar(s[k])
    ensures RunEnd(s, pos) == |s|
    decreases |s| - pos
  {
    if pos < |s| { RunToTheEnd(s, pos + 1); }
  }

  lemma {:induction false} LexIsLaidOut(s: string, pos: nat, words: seq<string>)
    requires pos <= |s| && Lex(s, pos) == Some(words)
    ensures LaidOut(s[pos..], words)
    decreases |s| - pos
  {
    var p := Skip(s, pos);
    BlanksIff(s, pos, p);
    if p == |s| {
      assert s[pos..] == s[pos..p];
    } else {
      var end := TokenEnd(s, p);
      LexIsLaidOut(s, end, words[1..]);
      TokenIs(s, p, end);
      hide Skip, TokenEnd, WordChar, IsSpace, AllOf;
      FirstIsLaid(s, pos, p, end, words);
    }
  }

  lemma FirstIsLaid(s: string, pos: nat, p: nat, end: nat, words: seq<string>)
    requires pos <= p < end <= |s| && words != [] && words[0] == s[p..end] && AllOf(s[pos..p], BLANKS)
    requires s[p..end] == "(" || s[p..end] == ")"
             || (AllOf(s[p..end], WORD_CHARS) && (end < |s| ==> !WordChar(s[end])))
    requires LaidOut(s[end..], words[1..])
    ensures LaidOut(s[pos..], words)
  {
    if end < |s| { CharsIff(s[end]); }
    hide WordChar, AllOf;
    assert s[pos..] == s[pos..p] + s[p..end] + s[end..];
    assert LaidFirst(s[pos..], words, s[pos..p], s[end..]);
  }

  lemma LexStep(s: string, pos: nat, p: nat, end: nat, words: seq<string>)
    requires pos <= p < end <= |s| && words != [] && s[p..end] == words[0]
    requires (forall k :: pos <= k < p ==> IsSpace(s[k])) && !IsSpace(s[p])
    requires TokenEnd(s, p) == end && Lex(s, end) == Some(words[1..])
    ensures Lex(s, pos) == Some(words)
  {
    hide IsSpace, TokenEnd;
    assert Skip(s, pos) == p;
    assert words == [words[0]] + words[1..];
  }

  lemma {:induction false} LaidOutIsLex(s: string, pos: nat, words: seq<string>)
    requires pos <= |s| && LaidOut(s[pos..], words)
    ensures Lex(s, pos) == Some(words)
    decreases |s| - pos
  {
    if words == [] {
      assert s[pos..] == s[pos..|s|];
      BlanksIff(s, pos, |s|);
      assert Skip(s, pos) == |s|;
    } else {
      var blanks, rest :| LaidFirst(s[pos..], words, blanks, rest);
      var p := pos + |blanks|;
      var end := p + |words[0]|;
      LaidParts(s, pos, words, blanks, rest);
      assert LaidOut(s[end..], words[1..]) && AllOf(s[pos..p], BLANKS) && p < end;
      FirstToken(s, p, end, words[0], rest);
      hide AllOf, LaidOut, LaidFirst, Lex, TokenEnd, IsSpace, Skip;
      LaidOutIsLex(s, end, words[1..]);
      BlanksIff(s, pos, p);
      LexStep(s, pos, p, end, words);
    }
  }

  lemma FirstToken(s: string, p: nat, end: nat, word: string, rest: string)
    requires p < end <= |s| && s[p..end] == word && s[end..] == rest
    requires word == "(" || word == ")" || (AllOf(word, WORD_CHARS) && (rest != "" ==> rest[0] !in WORD_CHARS))
    ensures TokenEnd(s, p) == end && !IsSpace(s[p])
  {
    assert s[p] == word[0];
    CharsIff(s[p]);
    if end < |s| {
      assert rest[0] == s[end];
      CharsIff(s[end]);
    }
    TokenIs(s, p, end);
    hide TokenEnd;
  }

  lemma LaidParts(s: string, pos: nat, words: seq<string>, blanks: string, rest: string)
    requires pos <= |s| && words != [] && s[pos..] == blanks + words[0] + rest
    ensures var p := pos + |blanks|;
            var end := p + |words[0]|;
      end <= |s| && s[pos..p] == blanks && s[p..end] == words[0] && s[end..] == rest
  {
    var p := pos + |blanks|;
    var end := p + |words[0]|;
    assert |s| - pos == |blanks| + |words[0]| + |rest|;
    assert s[pos..p] == s[pos..][..|blanks|];
    assert s[p..end] == s[pos..][|blanks|..|blanks| + |words[0]|];
    assert s[end..] == s[pos..][|blanks| + |words[0]|..];
  }

  /** A text is read as these words exactly when it is these words, laid out with blanks. */
  lemma TokensIff(text: string, words: seq<string>)
    ensures Lex(text, 0) == Some(words) <==> LaidOut(text, words)
  {
    assert text[0..] == text;
    if Lex(text, 0) == Some(words) { LexIsLaidOut(text, 0, words); }
    if LaidOut(text, words) { LaidOutIsLex(text, 0, words); }
  }
}
