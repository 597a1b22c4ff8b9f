/** Which stored terms a query for one term reads: the term, the retired terms it replaced, and
    its subproperties, however these chains run. The answers are cached. */
module Vocabulary {
  import opened Records
  import opened MergeForest

  datatype Term = Term(parent: Option<string>, replacedBy: set<string>)

  /** A compiled ontology never changes; learning a term makes another one. */
  class Terms {
    const relations: map<string, Term>
    const attributes: map<string, Term>
    const prefix: string

    constructor (relations: map<string, Term>, attributes: map<string, Term>, prefix: string)
      ensures this.relations == relations && this.attributes == attributes && this.prefix == prefix
    {
      this.relations, this.attributes, this.prefix := relations, attributes, prefix;
    }

    function Qualify(name: string): string {
      if ':' in name then name else prefix + ":" + name
    }

    predicate Replaced(o: string, c: string) {
      (o in relations && c in relations[o].replacedBy) || (o in attributes && c in attributes[o].replacedBy)
    }

    predicate Child(o: string, c: string) {
      (o in relations && ParentIs(relations[o], c)) || (o in attributes && ParentIs(attributes[o], c))
    }

    /** A read of c also reads o. */
    predicate Below(sub: bool, o: string, c: string) {
      Replaced(o, c) || (sub && Child(o, c))
    }

    function Names(): set<string> {
      relations.Keys + attributes.Keys
    }

    ghost predicate Closed(sub: bool, w: set<string>) {
      forall o, c :: c in w && Below(sub, o, c) ==> o in w
    }

    /** The least set that holds the term and is closed under what reads through to it. */
    ghost predicate ReadSet(name: string, sub: bool, w: set<string>) {
      name in w && Closed(sub, w) && forall v | Closed(sub, v) :: name in v ==> w <= v
    }

    /** Nothing in w is more than a closed set holding the term must hold. */
    ghost predicate Needed(name: string, sub: bool, w: set<string>) {
      forall v | Closed(sub, v) :: name in v ==> w <= v
    }

    ghost predicate Swept(sub: bool, done: set<string>, w: set<string>) {
      forall o, c :: c in done && Below(sub, o, c) ==> o in w
    }

    lemma SweepOneMore(name: string, sub: bool, done: set<string>, w: set<string>, c: string, found: set<string>)
      requires Needed(name, sub, w) && Swept(sub, done, w) && c in w
      requires forall o :: o in found <==> Below(sub, o, c)
      ensures Needed(name, sub, w + found) && Swept(sub, done + {c}, w + found)
    {
      forall v | Closed(sub, v) ensures name in v ==> w + found <= v {}
    }

    lemma SweepDone(name: string, sub: bool, w: set<string>)
      requires name in w && Needed(name, sub, w) && Swept(sub, w, w)
      ensures ReadSet(name, sub, w)
    {
    }

    lemma SweepStarts(name: string, sub: bool)
      ensures Needed(name, sub, {name}) && Swept(sub, {}, {name})
    {
    }

    lemma SweepShrinks(w: set<string>, found: set<string>)
      requires found <= Names()
      ensures if found <= w then w + found == w else |Names() - (w + found)| < |Names() - w|
    {
      if o :| o in found && o !in w {
        assert o in Names() - w && o !in Names() - (w + found);
        SmallerSet(Names() - (w + found), Names() - w);
      }
    }

    lemma OneReadSet(name: string, sub: bool, w: set<string>, v: set<string>)
      requires ReadSet(name, sub, w) && ReadSet(name, sub, v)
      ensures w == v
    {
    }
  }

  predicate ParentIs(t: Term, c: string) {
    t.parent.Some? && t.parent.value != "" && t.parent.value == c
  }

  function Kids(children: map<string, set<string>>, c: string): set<string> {
    if c in children then children[c] else {}
  }

  class Reader {
    var terms: Terms
    var children: map<string, set<string>>
    var cache: map<(string, bool), set<string>>
    var cacheFor: Terms?

    /** The children belong to the ontology in use, and so does every answer the cache may give. */
    ghost predicate Valid()
      reads this
    {
      && (forall c, o :: o in Kids(children, c) <==> terms.Child(o, c))
      && (cacheFor == terms ==>
            forall k :: k in cache ==> terms.ReadSet(terms.Qualify(k.0), k.1, cache[k]))
    }

    constructor (declared: Terms)
      ensures Valid() && terms == declared
    {
      terms, cache, cacheFor, children := declared, map[], null, map[];
      new;
      Refresh(declared);
    }

    /** After a term is learned, rejected or imported. */
    method Refresh(inUse: Terms)
      modifies this
      ensures Valid() && terms == inUse && cache == map[]
    {
      terms := inUse;
      var ofRelations := AddChildren(inUse.relations, map[]);
      var ofBoth := AddChildren(inUse.attributes, ofRelations);
      children := ofBoth;
      cache := map[];
    }

    static function KidsIn(table: map<string, Term>, names: set<string>, c: string): set<string> {
      set o | o in names && o in table && ParentIs(table[o], c)
    }

    ghost predicate Added(before: map<string, set<string>>, after: map<string, set<string>>,
                          table: map<string, Term>, done: set<string>)
    {
      forall c :: Kids(after, c) == Kids(before, c) + KidsIn(table, done, c)
    }

    static function AddOne(after: map<string, set<string>>, parent: Option<string>, o: string)
      : map<string, set<string>>
    {
      if parent.Some? && parent.value != "" then after[parent.value := Kids(after, parent.value) + {o}] else after
    }

    lemma AddedOneMore(before: map<string, set<string>>, after: map<string, set<string>>,
                       table: map<string, Term>, done: set<string>, o: string)
      requires Added(before, after, table, done) && o in table
      ensures Added(before, AddOne(after, table[o].parent, o), table, done + {o})
    {
      forall c
        ensures KidsIn(table, done + {o}, c) == KidsIn(table, done, c) + (if ParentIs(table[o], c) then {o} else {}) {}
      hide KidsIn;
    }

    method AddChildren(table: map<string, Term>, before: map<string, set<string>>)
      returns (after: map<string, set<string>>)
      ensures Added(before, after, table, table.Keys)
    {
      after := before;
      var todo := table.Keys;
      ghost var done := {};
      assert Added(before, after, table, {});
      hide Added, KidsIn;
      while todo != {}
        invariant done + todo == table.Keys
        invariant Added(before, after, table, done)
        decreases |todo|
      {
        var o :| o in todo;
        AddedOneMore(before, after, table, done, o);
        todo, done := todo - {o}, done + {o};
        after := AddOne(after, table[o].parent, o);
      }
      assert done == table.Keys;
    }

    /** From the cache or worked out, the answer is the one read set; the frontier's order does
        not matter, and a vocabulary with cycles is no different. */
    method ReadPredicates(property: string, sub: bool) returns (wanted: set<string>)
      requires Valid()
      modifies this`cache, this`cacheFor
      ensures Valid()
      ensures terms.ReadSet(terms.Qualify(property), sub, wanted)
      ensures cacheFor == terms && (property, sub) in cache && cache[(property, sub)] == wanted
    {
      var key := (property, sub);
      if cacheFor != terms { cache, cacheFor := map[], terms; }
      if key in cache { return cache[key]; }
      wanted := Sweep(terms.Qualify(property), sub);
      cache := cache[key := wanted];
    }

    method Sweep(name: string, sub: bool) returns (wanted: set<string>)
      requires Valid()
      ensures terms.ReadSet(name, sub, wanted)
    {
      hide *;
      var voc := terms;
      wanted := {name};
      var frontier := {name};
      voc.SweepStarts(name, sub);
      assert wanted - frontier == {};
      while frontier != {}
        invariant frontier <= wanted && name in wanted
        invariant voc.Needed(name, sub, wanted) && voc.Swept(sub, wanted - frontier, wanted)
        decreases |voc.Names() - wanted|, |frontier|
      {
        var current :| current in frontier;
        var found := ReadThrough(current, sub);
        voc.SweepOneMore(name, sub, wanted - frontier, wanted, current, found);
        voc.SweepShrinks(wanted, found);
        assert (wanted + found) - (frontier - {current} + (found - wanted)) == (wanted - frontier) + {current};
        if found <= wanted { assert frontier - {current} + (found - wanted) == frontier - {current}; }
        frontier, wanted := frontier - {current} + (found - wanted), wanted + found;
      }
      assert wanted - frontier == wanted;
      voc.SweepDone(name, sub, wanted);
    }

    /** One hop down: retired terms, and subproperties when asked. */
    method ReadThrough(c: string, sub: bool) returns (found: set<string>)
      requires Valid()
      ensures forall o :: o in found <==> terms.Below(sub, o, c)
      ensures found <= terms.Names()
    {
      found := set o | o in terms.Names() && terms.Replaced(o, c);
      if sub { found := found + Kids(children, c); }
    }
  }

  /** Across any refresh: what the cache would answer and what would be worked out are one set. */
  lemma CachedIsFresh(r: Reader, property: string, sub: bool, fresh_: set<string>)
    requires r.Valid() && r.cacheFor == r.terms && (property, sub) in r.cache
    requires r.terms.ReadSet(r.terms.Qualify(property), sub, fresh_)
    ensures r.cache[(property, sub)] == fresh_
  {
    r.terms.OneReadSet(r.terms.Qualify(property), sub, r.cache[(property, sub)], fresh_);
  }

  // ---- What is read, said of the stored terms -----------------------------------------------------------------

  /** A query for c reads o at once: o was retired in favour of c, or, when subproperties are asked for, c is its
    * parent. */
  predicate ReadsInto(voc: Terms, sub: bool, o: string, c: string) {
    || (o in voc.relations && c in voc.relations[o].replacedBy)
    || (o in voc.attributes && c in voc.attributes[o].replacedBy)
    || (sub && c != "" && ((o in voc.relations && voc.relations[o].parent == Some(c))
                           || (o in voc.attributes && voc.attributes[o].parent == Some(c))))
  }

  /** Each term of the chain is read into the one before it. */
  predicate IsChain(voc: Terms, sub: bool, p: seq<string>) {
    |p| > 0 && (|p| > 1 ==> ReadsInto(voc, sub, p[|p| - 1], p[|p| - 2]) && IsChain(voc, sub, p[..|p| - 1]))
  }

  ghost predicate IsReached(voc: Terms, sub: bool, name: string, o: string) {
    exists p :: IsChain(voc, sub, p) && p[0] == name && p[|p| - 1] == o
  }

  lemma ReadsIntoIff(voc: Terms, sub: bool, o: string, c: string)
    ensures voc.Below(sub, o, c) <==> ReadsInto(voc, sub, o, c)
  {
  }

  lemma ReachedFrom(voc: Terms, sub: bool, name: string)
    ensures IsReached(voc, sub, name, name)
  {
    hide ReadsInto;
    assert IsChain(voc, sub, [name]) && [name][0] == name;
  }

  lemma ReachedOneMore(voc: Terms, sub: bool, name: string, o: string, c: string)
    requires IsReached(voc, sub, name, c) && ReadsInto(voc, sub, o, c)
    ensures IsReached(voc, sub, name, o)
  {
    hide ReadsInto;
    var p :| IsChain(voc, sub, p) && p[0] == name && p[|p| - 1] == c;
    assert (p + [o])[..|p|] == p;
    assert IsChain(voc, sub, p + [o]) && (p + [o])[0] == name;
  }

  lemma {:induction false} ChainsAreHeld(voc: Terms, name: string, sub: bool, w: set<string>, p: seq<string>)
    requires voc.Closed(sub, w) && name in w && IsChain(voc, sub, p) && p[0] == name
    ensures p[|p| - 1] in w
  {
    hide ReadsInto, Terms.Below;
    if |p| > 1 {
      ChainsAreHeld(voc, name, sub, w, p[..|p| - 1]);
      ReadsIntoIff(voc, sub, p[|p| - 1], p[|p| - 2]);
      assert voc.Below(sub, p[|p| - 1], p[|p| - 2]);
    }
  }

  lemma ReachedIsHeld(voc: Terms, name: string, sub: bool, w: set<string>, o: string)
    requires voc.Closed(sub, w) && name in w && IsReached(voc, sub, name, o)
    ensures o in w
  {
    hide Terms.Closed;
    var p :| IsChain(voc, sub, p) && p[0] == name && p[|p| - 1] == o;
    ChainsAreHeld(voc, name, sub, w, p);
  }

  lemma ReachedIsClosed(voc: Terms, name: string, sub: bool, w: set<string>, reached: set<string>)
    requires voc.Closed(sub, w) && forall o :: o in reached <==> o in w && IsReached(voc, sub, name, o)
    ensures voc.Closed(sub, reached)
  {
    hide Terms.Below, IsReached, ReadsInto;
    forall o, c | c in reached && voc.Below(sub, o, c)
      ensures o in reached
    {
      ReadsIntoIff(voc, sub, o, c);
      ReachedOneMore(voc, sub, name, o, c);
    }
  }

  /** A query for a property reads exactly the terms that chains of replacements and, when asked for, of subproperties
    * lead to from its qualified name. */
  lemma ReadSetIff(voc: Terms, property: string, sub: bool, w: set<string>)
    requires voc.ReadSet(voc.Qualify(property), sub, w)
    ensures forall o :: o in w
              <==> IsReached(voc, sub, if ':' in property then property else voc.prefix + ":" + property, o)
  {
    hide IsReached, Terms.Closed;
    var name := if ':' in property then property else voc.prefix + ":" + property;
    var reached := set o | o in w && IsReached(voc, sub, name, o);
    ReachedFrom(voc, sub, name);
    ReachedIsClosed(voc, name, sub, w, reached);
    assert w <= reached;
    forall o | IsReached(voc, sub, name, o)
      ensures o in w
    {
      ReachedIsHeld(voc, name, sub, w, o);
    }
  }
}
