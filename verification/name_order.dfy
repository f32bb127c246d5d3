/**
 * `ORDER BY name ASC`: names compare lexicographically by code point and a
 * null name sorts after every non-null one. Rows with equal names keep their
 * scan order.
 */
module NameOrder {
  import opened Wrappers
  import opened Entities
  import Text

  predicate NameLe(a: Option<string>, b: Option<string>)
  {
    b.None? || (a.Some? && Text.LexLe(a.value, b.value))
  }

  lemma NameLeTotal(a: Option<string>, b: Option<string>)
    ensures NameLe(a, b) || NameLe(b, a)
  {
    if a.Some? && b.Some? {
      Text.LexLeTotal(a.value, b.value);
    }
  }

  lemma NameLeTransitive(a: Option<string>, b: Option<string>, c: Option<string>)
    requires NameLe(a, b) && NameLe(b, c)
    ensures NameLe(a, c)
  {
    if a.Some? && b.Some? && c.Some? {
      Text.LexLeTransitive(a.value, b.value, c.value);
    }
  }

  predicate SortedByName(cs: seq<Client>)
  {
    forall i, j :: 0 <= i < j < |cs| ==> NameLe(cs[i].name, cs[j].name)
  }

  /** Inserts `c` before the first row whose name is not smaller. */
  function Insert(c: Client, cs: seq<Client>): seq<Client>
    decreases |cs|
  {
    if cs == [] then [c]
    else if NameLe(c.name, cs[0].name) then [c] + cs
    else [cs[0]] + Insert(c, cs[1..])
  }

  function SortByName(cs: seq<Client>): seq<Client>
    decreases |cs|
  {
    if cs == [] then [] else Insert(cs[0], SortByName(cs[1..]))
  }

  lemma {:induction false} InsertPermutes(c: Client, cs: seq<Client>)
    ensures multiset(Insert(c, cs)) == multiset(cs) + multiset{c}
    decreases |cs|
  {
    if cs != [] && !NameLe(c.name, cs[0].name) {
      InsertPermutes(c, cs[1..]);
      assert cs == [cs[0]] + cs[1..];
    }
  }

  lemma {:induction false} InsertSorted(c: Client, cs: seq<Client>)
    requires SortedByName(cs)
    ensures SortedByName(Insert(c, cs))
    decreases |cs|
  {
    if cs == [] {
    } else if NameLe(c.name, cs[0].name) {
      var r := [c] + cs;
      forall i, j | 0 <= i < j < |r|
        ensures NameLe(r[i].name, r[j].name)
      {
        if i == 0 && j > 1 {
          NameLeTransitive(c.name, cs[0].name, cs[j - 1].name);
        }
      }
    } else {
      NameLeTotal(c.name, cs[0].name);
      var tail := Insert(c, cs[1..]);
      InsertSorted(c, cs[1..]);
      InsertPermutes(c, cs[1..]);
      var r := [cs[0]] + tail;
      forall j | 0 <= j < |tail|
        ensures NameLe(cs[0].name, tail[j].name)
      {
        assert tail[j] in multiset(tail);
        if tail[j] != c {
          assert tail[j] in multiset(cs[1..]);
          var k :| 0 <= k < |cs[1..]| && cs[1..][k] == tail[j];
          assert cs[k + 1] == tail[j];
        }
      }
      assert forall i, j :: 0 <= i < j < |r| ==> NameLe(r[i].name, r[j].name);
    }
  }

  /** `ORDER BY name` yields rows in ascending name order... */
  lemma {:induction false} SortByNameSorted(cs: seq<Client>)
    ensures SortedByName(SortByName(cs))
    decreases |cs|
  {
    if cs != [] {
      SortByNameSorted(cs[1..]);
      InsertSorted(cs[0], SortByName(cs[1..]));
    }
  }

  /** ...and they are the same rows, each as often as before. */
  lemma {:induction false} SortByNamePermutes(cs: seq<Client>)
    ensures multiset(SortByName(cs)) == multiset(cs)
    decreases |cs|
  {
    if cs != [] {
      SortByNamePermutes(cs[1..]);
      InsertPermutes(cs[0], SortByName(cs[1..]));
      assert cs == [cs[0]] + cs[1..];
    }
  }
}
