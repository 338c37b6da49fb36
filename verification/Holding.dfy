/** Which tables hold a block, and how that number moves when a table changes. */
module Holding {

  ghost predicate NoDup<T>(s: seq<T>) {
    forall i, j :: 0 <= i < j < |s| ==> s[i] != s[j]
  }

  function Elems<T(==)>(s: seq<T>): set<T> {
    set x | x in s
  }

  lemma NoDupHead<T>(s: seq<T>)
    requires NoDup(s) && s != []
    ensures s[0] !in s[1..] && NoDup(s[1..])
    ensures s == [s[0]] + s[1..]
  {
  }

  /** The tables that hold block `b`. */
  ghost function Holders<K, B>(tables: map<K, seq<B>>, b: B): set<K> {
    set o | o in tables && b in tables[o]
  }

  ghost function Bit(p: bool): nat {
    if p then 1 else 0
  }

  lemma HoldersUpdate<K, B>(tables: map<K, seq<B>>, o: K, t: seq<B>, b: B)
    ensures |Holders(tables[o := t], b)|
            == |Holders(tables, b)| + Bit(b in t) - Bit(o in tables && b in tables[o])
  {
    var before, after := Holders(tables, b), Holders(tables[o := t], b);
    if b in t {
      assert after == before + {o};
    } else {
      assert after == before - {o};
    }
  }

  lemma HoldersRemove<K, B>(tables: map<K, seq<B>>, o: K, b: B)
    ensures |Holders(tables - {o}, b)| == |Holders(tables, b)| - Bit(o in tables && b in tables[o])
  {
    assert Holders(tables - {o}, b) == Holders(tables, b) - {o};
  }

  /** Giving the same table to a set of new owners adds exactly those owners. */
  lemma HoldersAssign<K, B>(tables: map<K, seq<B>>, owners: set<K>, t: seq<B>, b: B)
    requires owners !! tables.Keys
    ensures |Holders(tables + map o | o in owners :: t, b)|
            == |Holders(tables, b)| + (if b in t then |owners| else 0)
  {
    var after := Holders(tables + map o | o in owners :: t, b);
    if b in t {
      assert after == Holders(tables, b) + owners;
      assert Holders(tables, b) !! owners;
    } else {
      assert after == Holders(tables, b);
    }
  }

  lemma TwoMembers<T>(h: set<T>, a: T, b: T)
    requires a in h && b in h && a != b
    ensures |h| >= 2
  {
    assert |{a, b}| == 2;
    assert h == {a, b} + (h - {a, b});
  }

  lemma {:induction false} ElemsCardinality<T>(s: seq<T>)
    requires NoDup(s)
    ensures |Elems(s)| == |s|
  {
    if s != [] {
      var init, last := s[..|s| - 1], s[|s| - 1];
      ElemsCardinality(init);
      assert s == init + [last];
      assert Elems(s) == Elems(init) + {last};
    }
  }
}
