/**
 * The starting table built from the roster: every listed name at the
 * starting rating. A name listed twice is simply written twice, so it keeps
 * the place of its first listing, as a dictionary does.
 */
module Roster {
  import opened Matches

  /** The names in the order a dictionary first receives them: first listings, in roster order. */
  function RosterOrder(roster: seq<string>): (r: seq<string>)
    ensures Distinct(r)
    ensures forall name :: name in r <==> name in roster
  {
    if roster == [] then []
    else
      var earlier := RosterOrder(roster[..|roster| - 1]);
      var name := roster[|roster| - 1];
      assert forall n :: n in roster <==> n in roster[..|roster| - 1] || n == name by {
        assert roster == roster[..|roster| - 1] + [name];
      }
      if name in earlier then earlier else earlier + [name]
  }

  /** The table after `players[name] = start` for each roster line in turn: the roster's names, all at `start`. */
  function InitialRatings(roster: seq<string>, start: real): (t: Table)
    ensures forall name :: name in t <==> name in roster
    ensures forall name :: name in t ==> t[name] == start
  {
    if roster == [] then map[]
    else
      var name := roster[|roster| - 1];
      assert forall n :: n in roster <==> n in roster[..|roster| - 1] || n == name by {
        assert roster == roster[..|roster| - 1] + [name];
      }
      InitialRatings(roster[..|roster| - 1], start)[name := start]
  }

  /** The position of the first listing of `name`. */
  function FirstIndex(s: seq<string>, name: string): (i: nat)
    requires name in s
    ensures i < |s| && s[i] == name && name !in s[..i]
  {
    if s[0] == name then 0
    else
      var i := 1 + FirstIndex(s[1..], name);
      assert s[..i] == [s[0]] + s[1..][..i - 1];
      i
  }

  /** A name already in a prefix is first listed inside that prefix. */
  lemma FirstIndexPrefix(s: seq<string>, name: string, n: nat)
    requires n <= |s| && name in s[..n]
    ensures FirstIndex(s, name) == FirstIndex(s[..n], name)
  {
    var j := FirstIndex(s[..n], name);
    assert s[..n][..j] == s[..j];
  }

  /** The starting order lists the names by their first listing in the roster. */
  lemma {:induction false} RosterOrderFirstSeen(roster: seq<string>)
    ensures forall i, j :: 0 <= i < j < |RosterOrder(roster)| ==>
      FirstIndex(roster, RosterOrder(roster)[i]) < FirstIndex(roster, RosterOrder(roster)[j])
  {
    if roster != [] {
      var n := |roster| - 1;
      var before := roster[..n];
      var earlier := RosterOrder(before);
      RosterOrderFirstSeen(before);
      forall x | x in earlier ensures FirstIndex(roster, x) == FirstIndex(before, x) && FirstIndex(roster, x) < n {
        FirstIndexPrefix(roster, x, n);
      }
      var name := roster[n];
      if name !in earlier {
        assert name !in before;
        assert FirstIndex(roster, name) == n;
        var r := earlier + [name];
        assert RosterOrder(roster) == r;
        forall i, j | 0 <= i < j < |r| ensures FirstIndex(roster, r[i]) < FirstIndex(roster, r[j]) {
          assert r[i] == earlier[i] && earlier[i] in earlier;
          if j < |earlier| {
            assert r[j] == earlier[j] && earlier[j] in earlier;
            assert FirstIndex(before, earlier[i]) < FirstIndex(before, earlier[j]);
          }
        }
      } else {
        assert RosterOrder(roster) == earlier;
        forall i, j | 0 <= i < j < |earlier|
          ensures FirstIndex(roster, earlier[i]) < FirstIndex(roster, earlier[j])
        {
          assert earlier[i] in earlier && earlier[j] in earlier;
          assert FirstIndex(before, earlier[i]) < FirstIndex(before, earlier[j]);
        }
      }
    }
  }

  /** One more roster line: its name joins the key order if new, and is set to the starting rating. */
  lemma LoadStep(roster: seq<string>, name: string, start: real)
    ensures RosterOrder(roster + [name]) ==
      if name in InitialRatings(roster, start) then RosterOrder(roster) else RosterOrder(roster) + [name]
    ensures InitialRatings(roster + [name], start) == InitialRatings(roster, start)[name := start]
  {
    var r := roster + [name];
    assert r[..|r| - 1] == roster && r[|r| - 1] == name;
  }

  /** A name new to the roster goes to the end of the key order. */
  lemma RosterOrderFresh(roster: seq<string>, name: string)
    requires name !in roster
    ensures RosterOrder(roster + [name]) == RosterOrder(roster) + [name]
  {
    var r := roster + [name];
    assert r[..|r| - 1] == roster && r[|r| - 1] == name;
  }

  /** A roster without repeated lines is its own key order. */
  lemma {:induction false} RosterOrderDistinct(roster: seq<string>)
    requires Distinct(roster)
    ensures RosterOrder(roster) == roster
    decreases |roster|
  {
    if roster != [] {
      var init := roster[..|roster| - 1];
      var name := roster[|roster| - 1];
      assert roster == init + [name];
      assert Distinct(init);
      RosterOrderDistinct(init);
      RosterOrderFresh(init, name);
    }
  }

  /** The starting order lists exactly the starting table's names, each once. */
  lemma StartingTableListed(roster: seq<string>, start: real)
    ensures Lists(RosterOrder(roster), InitialRatings(roster, start))
  {
  }
}
