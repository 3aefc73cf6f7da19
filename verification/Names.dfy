/** Lists of names without repeats, and the `len(set(…)) == len(…)` check for them. */
module Names {
  predicate Distinct(names: seq<string>) {
    forall i, j :: 0 <= i < j < |names| ==> names[i] != names[j]
  }

  function Unique(names: seq<string>): set<string> {
    set name | name in names
  }

  lemma DistinctMore(names: seq<string>, name: string)
    ensures Distinct(names + [name]) <==> Distinct(names) && name !in names
  {
    var more := names + [name];
    if Distinct(more) {
      forall i, j | 0 <= i < j < |names| ensures names[i] != names[j] {
        assert more[i] == names[i] && more[j] == names[j];
      }
      forall i | 0 <= i < |names| ensures names[i] != name {
        assert more[i] == names[i] && more[|names|] == name;
      }
    }
  }

  /** Collecting names into a set loses none exactly when they are distinct. */
  lemma {:induction false} UniqueCount(names: seq<string>)
    ensures |Unique(names)| <= |names| && (|Unique(names)| == |names| <==> Distinct(names))
  {
    if names != [] {
      var front, last := names[..|names| - 1], names[|names| - 1];
      assert names == front + [last];
      UniqueCount(front);
      DistinctMore(front, last);
      assert Unique(names) == Unique(front) + {last};
      assert last in Unique(front) <==> last in front;
      hide Unique, Distinct;
      if last in front { assert Unique(front) + {last} == Unique(front); }
    }
  }
}
