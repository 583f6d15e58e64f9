/**
 * The final ranking: the table's entries in dictionary order, sorted by
 * descending rating with a stable sort (entries of equal rating keep their
 * dictionary order), numbered from 1, with a medal for the first three.
 */
module Ranking {
  import opened Matches

  datatype Entry = Entry(name: string, rating: real)

  /** One printed ranking line: position, name, rating and icon. */
  datatype Standing = Standing(position: nat, name: string, rating: real, icon: string)

  /** The table's items in the order of `names`. */
  function Items(names: seq<string>, table: Table): (s: seq<Entry>)
    requires forall i :: 0 <= i < |names| ==> names[i] in table
    ensures |s| == |names|
    ensures forall i :: 0 <= i < |names| ==> s[i] == Entry(names[i], table[names[i]])
  {
    if names == [] then [] else [Entry(names[0], table[names[0]])] + Items(names[1..], table)
  }

  ghost predicate NonIncreasing(s: seq<Entry>) {
    forall i, j :: 0 <= i < j < |s| ==> s[i].rating >= s[j].rating
  }

  /** The entries of `s` whose rating is `v`, in their order in `s`. */
  function Ties(s: seq<Entry>, v: real): seq<Entry> {
    if s == [] then [] else (if s[0].rating == v then [s[0]] else []) + Ties(s[1..], v)
  }

  lemma TiesCons(e: Entry, s: seq<Entry>, v: real)
    ensures Ties([e] + s, v) == (if e.rating == v then [e] else []) + Ties(s, v)
  {
    assert ([e] + s)[1..] == s;
  }

  /** Places `e` in front of the first entry whose rating is not above its own: `s` plus `e`. */
  function Insert(e: Entry, s: seq<Entry>): (r: seq<Entry>)
    ensures |r| == |s| + 1
    ensures multiset(r) == multiset(s) + multiset{e}
  {
    if s == [] then [e]
    else if e.rating >= s[0].rating then [e] + s
    else
      assert s == [s[0]] + s[1..];
      [s[0]] + Insert(e, s[1..])
  }

  /** Inserting into a sorted sequence keeps it sorted. */
  lemma {:induction false} InsertSorted(e: Entry, s: seq<Entry>)
    requires NonIncreasing(s)
    ensures NonIncreasing(Insert(e, s))
  {
    if s != [] && e.rating < s[0].rating {
      var rest := Insert(e, s[1..]);
      assert s == [s[0]] + s[1..];
      assert Insert(e, s) == [s[0]] + rest;
      assert NonIncreasing(s[1..]);
      InsertSorted(e, s[1..]);
      forall j | 0 <= j < |rest| ensures s[0].rating >= rest[j].rating {
        assert rest[j] in multiset(rest);
        assert rest[j] == e || rest[j] in multiset(s[1..]);
        if rest[j] != e {
          var k :| 0 <= k < |s[1..]| && s[1..][k] == rest[j];
          assert s[k + 1] == rest[j];
        }
      }
      SortedCons(s[0], rest);
    }
  }

  /** An entry rated at least as high as every entry of a sorted sequence can go in front of it. */
  lemma SortedCons(x: Entry, r: seq<Entry>)
    requires NonIncreasing(r) && forall j :: 0 <= j < |r| ==> x.rating >= r[j].rating
    ensures NonIncreasing([x] + r)
  {
    forall i, j | 0 <= i < j < |[x] + r| ensures ([x] + r)[i].rating >= ([x] + r)[j].rating {
      assert ([x] + r)[j] == r[j - 1];
      if i > 0 {
        assert ([x] + r)[i] == r[i - 1];
      }
    }
  }

  /** Inserting keeps every group of equal ratings in the order of `[e] + s`. */
  lemma {:induction false} InsertTies(e: Entry, s: seq<Entry>, v: real)
    ensures Ties(Insert(e, s), v) == Ties([e] + s, v)
  {
    if s != [] && e.rating < s[0].rating {
      var head, tail := s[0], s[1..];
      var mark := if head.rating == v then [head] else [];
      var own := if e.rating == v then [e] else [];
      var later := Ties(tail, v);
      InsertBehindTies(e, s, v);
      InsertTies(e, tail, v);
      TiesCons(e, tail, v);
      assert Ties(Insert(e, s), v) == mark + (own + later);
      TiesOfFirst(s, v);
      TiesCons(e, s, v);
      assert Ties([e] + s, v) == own + (mark + later);
      OneEmptyCommutes(mark, own, later);
    }
  }

  /** When `e` goes behind the first entry, the first entry's tie group comes first. */
  lemma InsertBehindTies(e: Entry, s: seq<Entry>, v: real)
    requires s != [] && e.rating < s[0].rating
    ensures Ties(Insert(e, s), v) == (if s[0].rating == v then [s[0]] else []) + Ties(Insert(e, s[1..]), v)
  {
    TiesCons(s[0], Insert(e, s[1..]), v);
  }

  /** The first entry's tie group, then the rest's. */
  lemma TiesOfFirst(s: seq<Entry>, v: real)
    requires s != []
    ensures Ties(s, v) == (if s[0].rating == v then [s[0]] else []) + Ties(s[1..], v)
  {
  }

  /** Two prefixes of which one is empty can be swapped. */
  lemma OneEmptyCommutes(a: seq<Entry>, b: seq<Entry>, c: seq<Entry>)
    requires a == [] || b == []
    ensures a + (b + c) == b + (a + c)
  {
    if a == [] {
      assert a + (b + c) == b + c == b + (a + c);
    } else {
      assert a + (b + c) == a + c == b + (a + c);
    }
  }

  /**
   * `sorted(items, key=rating, reverse=True)`: a permutation of the items,
   * by non-increasing rating, in which entries with equal ratings keep their
   * input order (the two sequences agree on every group of equal ratings).
   */
  function Ranked(s: seq<Entry>): (r: seq<Entry>)
    ensures |r| == |s|
    ensures multiset(r) == multiset(s)
    ensures NonIncreasing(r)
    ensures forall v :: Ties(r, v) == Ties(s, v)
  {
    if s == [] then []
    else
      var rest := Ranked(s[1..]);
      assert s == [s[0]] + s[1..];
      InsertSorted(s[0], rest);
      assert forall v :: Ties(Insert(s[0], rest), v) == Ties(s, v) by {
        forall v ensures Ties(Insert(s[0], rest), v) == Ties(s, v) {
          InsertTies(s[0], rest, v);
          TiesCons(s[0], rest, v);
          TiesCons(s[0], s[1..], v);
        }
      }
      Insert(s[0], rest)
  }

  /** The icon for 0-based position `i`: gold, silver and bronze medals, then nothing. */
  function Icon(i: nat): (icon: string)
    ensures icon != "" <==> i < 3
  {
    var emoji := ["\U{1F947}", "\U{1F948}", "\U{1F949}"];
    if i < 3 then emoji[i] else ""
  }

  /**
   * The ranking lines: the ranked entries, numbered from 1, best first, with
   * icons on the first three lines only.
   */
  function Standings(entries: seq<Entry>): (lines: seq<Standing>)
    ensures |lines| == |entries|
    ensures forall i :: 0 <= i < |lines| ==>
      lines[i].position == i + 1 && lines[i].icon == Icon(i) &&
      Entry(lines[i].name, lines[i].rating) == Ranked(entries)[i]
    ensures forall i, j :: 0 <= i < j < |lines| ==> lines[i].rating >= lines[j].rating
    ensures forall i :: 0 <= i < |lines| ==> (lines[i].icon != "" <==> i < 3)
  {
    var ranked := Ranked(entries);
    seq(|ranked|, i requires 0 <= i < |ranked| => Standing(i + 1, ranked[i].name, ranked[i].rating, Icon(i)))
  }

  /** The ranking lists every entry exactly once. */
  lemma StandingsRank(entries: seq<Entry>)
    ensures var lines := Standings(entries);
      multiset(seq(|lines|, i requires 0 <= i < |lines| => Entry(lines[i].name, lines[i].rating))) == multiset(entries)
  {
    var lines := Standings(entries);
    var ranked := Ranked(entries);
    assert seq(|lines|, i requires 0 <= i < |lines| => Entry(lines[i].name, lines[i].rating)) == ranked;
  }

  /** Entries already in non-increasing order are ranked as they stand. */
  lemma {:induction false} RankedSorted(s: seq<Entry>)
    requires NonIncreasing(s)
    ensures Ranked(s) == s
  {
    if s != [] {
      assert NonIncreasing(s[1..]);
      RankedSorted(s[1..]);
      assert s == [s[0]] + s[1..];
    }
  }
}
