/** Options, and what counting says about sequences and sets. */
module Collections {

  datatype Option<+T> = None | Some(value: T)

  ghost predicate Distinct<T>(s: seq<T>) { forall i, j :: 0 <= i < j < |s| ==> s[i] != s[j] }

  function Members<T(==)>(s: seq<T>): set<T> { set x | x in s }

  lemma {:induction false} Fewer<T>(a: set<T>, b: set<T>)
    requires a <= b
    ensures |a| <= |b| && (|a| == |b| ==> a == b)
  {
    if a != {} {
      var x :| x in a;
      Fewer(a - {x}, b - {x});
    }
  }

  lemma {:induction false} MembersAreNoMore<T>(s: seq<T>)
    ensures |Members(s)| <= |s|
  {
    if s != [] {
      MembersAreNoMore(s[1..]);
      assert Members(s) == Members(s[1..]) + {s[0]};
    }
  }

  lemma FirstOfDistinct<T>(first: T, rest: seq<T>)
    ensures Distinct([first] + rest) <==> Distinct(rest) && first !in rest
  {
    var s := [first] + rest;
    if Distinct(s) {
      forall i, j | 0 <= i < j < |rest| ensures rest[i] != rest[j] {
        assert s[i + 1] != s[j + 1];
      }
      forall j | 0 <= j < |rest| ensures rest[j] != first {
        assert s[0] != s[j + 1];
      }
    }
    if Distinct(rest) && first !in rest {
      forall i, j | 0 <= i < j < |s| ensures s[i] != s[j] {
        assert s[j] == rest[j - 1];
      }
    }
  }

  /** As many members as places means that nothing stands in two places. */
  lemma {:induction false} Pigeonhole<T>(s: seq<T>)
    ensures |Members(s)| == |s| <==> Distinct(s)
  {
    if s != [] {
      var first, rest := s[0], s[1..];
      MembersAreNoMore(rest);
      Pigeonhole(rest);
      FirstOfDistinct(first, rest);
      assert s == [first] + rest;
      assert Members(s) == Members(rest) + {first};
    }
  }

  lemma PrefixGrows<T>(s: seq<T>, n: nat)
    requires n < |s|
    ensures s[..n + 1] == s[..n] + [s[n]]
  {
  }
}
