/** Order-preserving de-duplication of a sequence — the meaning of a list
    that is appended to only when `x not in list`. */
module Seqs {

  predicate NoDup<T(==)>(s: seq<T>)
  {
    forall i, j :: 0 <= i < j < |s| ==> s[i] != s[j]
  }

  /** The elements of `s` in order of first appearance, each once. */
  function Dedup<T(==)>(s: seq<T>): seq<T>
  {
    if s == [] then []
    else
      var d := Dedup(s[..|s| - 1]);
      if s[|s| - 1] in d then d else d + [s[|s| - 1]]
  }

  /** Appending one element extends the de-duplication only when that element
      is new. */
  lemma DedupSnoc<T>(s: seq<T>, x: T)
    ensures Dedup(s + [x]) == if x in Dedup(s) then Dedup(s) else Dedup(s) + [x]
  {
    assert (s + [x])[..|s|] == s;
  }

  /** Dedup keeps exactly the elements of `s`. */
  lemma {:induction false} DedupMembers<T>(s: seq<T>)
    ensures forall x :: x in Dedup(s) <==> x in s
    ensures forall i :: 0 <= i < |Dedup(s)| ==> Dedup(s)[i] in s
  {
    if s != [] {
      var p := s[..|s| - 1];
      DedupMembers(p);
      assert s == p + [s[|s| - 1]];
    }
  }

  /** Dedup never keeps an element twice. */
  lemma {:induction false} DedupNoDup<T>(s: seq<T>)
    ensures NoDup(Dedup(s))
  {
    if s != [] {
      DedupNoDup(s[..|s| - 1]);
    }
  }

  /** A duplicate-free sequence is its own de-duplication. */
  lemma {:induction false} DedupOfNoDup<T>(s: seq<T>)
    requires NoDup(s)
    ensures Dedup(s) == s
  {
    if s != [] {
      var p := s[..|s| - 1];
      assert NoDup(p);
      DedupOfNoDup(p);
      assert s[|s| - 1] !in p;
      assert p + [s[|s| - 1]] == s;
    }
  }

  /** Dedup is never longer than its input, and exactly as long when the
      input has no repeated element. */
  lemma {:induction false} DedupLength<T>(s: seq<T>)
    ensures |Dedup(s)| <= |s|
    ensures |Dedup(s)| == |s| <==> NoDup(s)
  {
    if s == [] {
    } else {
      var p := s[..|s| - 1];
      var x := s[|s| - 1];
      DedupLength(p);
      DedupMembers(p);
      if NoDup(s) {
        DedupOfNoDup(s);
      } else if x in p {
        assert Dedup(s) == Dedup(p);
      } else {
        assert !NoDup(p) by {
          var i, j :| 0 <= i < j < |s| && s[i] == s[j];
          assert j < |s| - 1;
          assert p[i] == p[j];
        }
      }
    }
  }

  /** A duplicate-free sequence has as many distinct elements as it is long. */
  lemma {:induction false} NoDupCard<T>(s: seq<T>)
    requires NoDup(s)
    ensures |set x | x in s| == |s|
  {
    if s != [] {
      var p := s[..|s| - 1];
      var x := s[|s| - 1];
      assert NoDup(p);
      NoDupCard(p);
      assert (set y | y in s) == (set y | y in p) + {x} by {
        assert s == p + [x];
      }
      assert x !in (set y | y in p);
    }
  }

  lemma SameMembersSameSet<T>(d: seq<T>, s: seq<T>)
    requires forall x :: x in d <==> x in s
    ensures (set x | x in d) == (set x | x in s)
  {
  }

  /** The length of the de-duplicated sequence is the number of distinct
      elements of the input. */
  lemma DedupCard<T>(s: seq<T>)
    ensures |Dedup(s)| == |set x | x in s|
  {
    DedupNoDup(s);
    NoDupCard(Dedup(s));
    DedupMembers(s);
    SameMembersSameSet(Dedup(s), s);
  }
}
