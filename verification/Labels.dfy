/** How the name of a new entity is written down: its words, one blank apart. */
module Labels {
  /** The whitespace at which a text is split. */
  predicate IsWhite(c: char) {
    var n := c as int;
    || 9 <= n <= 13 || 28 <= n <= 32 || n == 0x85 || n == 0xA0 || n == 0x1680 || 0x2000 <= n <= 0x200A
    || n == 0x2028 || n == 0x2029 || n == 0x202F || n == 0x205F || n == 0x3000
  }

  const WHITE: set<char> := {
    '\t', '\n', '\U{B}', '\U{C}', '\r', '\U{1C}', '\U{1D}', '\U{1E}', '\U{1F}', ' ', '\U{85}', '\U{A0}', '\U{1680}',
    '\U{2000}', '\U{2001}', '\U{2002}', '\U{2003}', '\U{2004}', '\U{2005}', '\U{2006}', '\U{2007}', '\U{2008}',
    '\U{2009}', '\U{200A}', '\U{2028}', '\U{2029}', '\U{202F}', '\U{205F}', '\U{3000}'}

  lemma WhiteIff(c: char)
    ensures IsWhite(c) <==> c in WHITE
  {
  }

  predicate Blank(s: string) {
    forall c | c in s :: IsWhite(c)
  }

  predicate IsWord(w: string) {
    w != "" && forall c | c in w :: !IsWhite(c)
  }

  /** The words of a text, after the beginning of one that is under way. */
  function Words(word: string, s: string): (ws: seq<string>)
    decreases |s|
  {
    if s == "" then (if word == "" then [] else [word])
    else if IsWhite(s[0]) then (if word == "" then [] else [word]) + Words("", s[1..])
    else Words(word + [s[0]], s[1..])
  }

  function Joined(ws: seq<string>): string {
    if ws == [] then "" else if |ws| == 1 then ws[0] else ws[0] + " " + Joined(ws[1..])
  }

  function Label(name: string): string {
    Joined(Words("", name))
  }

  lemma {:induction false} WordsAreWords(word: string, s: string)
    requires word == "" || IsWord(word)
    ensures forall w | w in Words(word, s) :: IsWord(w)
    ensures Words(word, s) == [] <==> word == "" && Blank(s)
    decreases |s|
  {
    if s != "" {
      assert s == [s[0]] + s[1..];
      if IsWhite(s[0]) {
        WordsAreWords("", s[1..]);
      } else {
        WordsAreWords(word + [s[0]], s[1..]);
      }
    }
  }

  /** A label is empty exactly when its name is blank. */
  lemma EmptyLabelIff(name: string)
    ensures Label(name) == "" <==> Blank(name)
  {
    WordsAreWords("", name);
    var ws := Words("", name);
    if ws != [] {
      assert ws[0] in ws && IsWord(ws[0]);
      assert |Joined(ws)| >= |ws[0]|;
    }
  }

  lemma {:induction false} WordUnderWay(word: string, w: string, s: string)
    requires forall c | c in w :: !IsWhite(c)
    ensures Words(word, w + s) == Words(word + w, s)
    decreases |w|
  {
    if w == "" {
      assert w + s == s && word + w == word;
    } else {
      assert (w + s)[1..] == w[1..] + s;
      assert word + w == (word + [w[0]]) + w[1..];
      WordUnderWay(word + [w[0]], w[1..], s);
    }
  }

  lemma {:induction false} WordsOfJoined(ws: seq<string>)
    requires forall w | w in ws :: IsWord(w)
    ensures Words("", Joined(ws)) == ws
    decreases |ws|
  {
    if ws != [] {
      assert ws[0] in ws && IsWord(ws[0]);
      if |ws| == 1 {
        assert ws[0] + "" == ws[0] && "" + ws[0] == ws[0];
        WordUnderWay("", ws[0], "");
      } else {
        WordsOfJoined(ws[1..]);
        var rest := " " + Joined(ws[1..]);
        assert Joined(ws) == ws[0] + rest && "" + ws[0] == ws[0];
        WordUnderWay("", ws[0], rest);
        assert rest[0] == ' ' && rest[1..] == Joined(ws[1..]);
      }
    }
  }

  /** A label is its own label: what is stored is found under the name it was stored as. */
  lemma LabelTwice(name: string)
    ensures Label(Label(name)) == Label(name)
  {
    WordsAreWords("", name);
    WordsOfJoined(Words("", name));
  }

  lemma {:induction false} GapsAreSkipped(gap: string, s: string)
    requires Blank(gap)
    ensures Words("", gap + s) == Words("", s)
    decreases |gap|
  {
    if gap == "" {
      assert gap + s == s;
    } else {
      assert (gap + s)[1..] == gap[1..] + s && gap == [gap[0]] + gap[1..];
      GapsAreSkipped(gap[1..], s);
      assert [] + Words("", gap[1..] + s) == Words("", gap[1..] + s);
    }
  }

  /** The words of a text are the runs between its gaps. */
  lemma NextWord(gap: string, w: string, rest: string)
    requires Blank(gap) && IsWord(w) && (rest != "" ==> rest[0] in WHITE)
    ensures Words("", gap + w + rest) == [w] + Words("", rest)
  {
    GapsAreSkipped(gap, w + rest);
    assert gap + w + rest == gap + (w + rest);
    WordUnderWay("", w, rest);
    assert "" + w == w;
    if rest != "" {
      WhiteIff(rest[0]);
      assert [] + Words("", rest[1..]) == Words("", rest[1..]);
    }
  }
}
