/** Concatenating a sequence of sequences: queues into a side of the book, reads into a stream. */
module Sequences {

  function Concat<T>(qs: seq<seq<T>>): seq<T> {
    if qs == [] then [] else qs[0] + Concat(qs[1..])
  }

  lemma {:induction false} ConcatSplit<T>(qs: seq<seq<T>>, i: nat)
    requires i <= |qs|
    ensures Concat(qs) == Concat(qs[..i]) + Concat(qs[i..])
  {
    if i > 0 {
      ConcatSplit(qs[1..], i - 1);
      assert qs[..i][1..] == qs[1..][..i - 1];
      assert qs[1..][i - 1..] == qs[i..];
    }
  }

  lemma ConcatAround<T>(qs: seq<seq<T>>, i: nat)
    requires i < |qs|
    ensures Concat(qs) == Concat(qs[..i]) + qs[i] + Concat(qs[i + 1..])
  {
    hide Concat;
    var front, back := qs[..i], qs[i..];
    ConcatSplit(qs, i);
    ConcatFirst(back);
    assert back[0] == qs[i] && back[1..] == qs[i + 1..];
    assert Concat(front) + (qs[i] + Concat(qs[i + 1..])) == Concat(front) + qs[i] + Concat(qs[i + 1..]);
  }

  lemma ConcatFirst<T>(qs: seq<seq<T>>)
    requires qs != []
    ensures Concat(qs) == qs[0] + Concat(qs[1..])
  {
  }

  lemma ConcatUpdate<T>(qs: seq<seq<T>>, i: nat, q: seq<T>)
    requires i < |qs|
    ensures Concat(qs[i := q]) == Concat(qs[..i]) + q + Concat(qs[i + 1..])
  {
    hide Concat;
    var rs := qs[i := q];
    ConcatAround(rs, i);
    assert rs[..i] == qs[..i] && rs[i + 1..] == qs[i + 1..];
  }

  /** `b` is `a` with one entry put in at `i`. */
  ghost predicate WithEntry<T>(a: seq<T>, b: seq<T>, i: nat) {
    && i <= |a|
    && |b| == |a| + 1
    && forall j | 0 <= j < |a| :: a[j] == b[if j < i then j else j + 1]
  }

  lemma {:induction false} ConcatEmpty<T>(qs: seq<seq<T>>, rs: seq<seq<T>>, i: nat)
    requires WithEntry(qs, rs, i) && rs[i] == []
    ensures Concat(rs) == Concat(qs)
  {
    if i == 0 {
      assert rs[1..] == qs;
    } else {
      assert rs[0] == qs[0];
      ConcatEmpty(qs[1..], rs[1..], i - 1);
    }
  }

  lemma {:induction false} ConcatMember<T>(qs: seq<seq<T>>, x: T) returns (i: nat)
    requires x in Concat(qs)
    ensures i < |qs| && x in qs[i]
  {
    if x in qs[0] {
      i := 0;
    } else {
      var j := ConcatMember(qs[1..], x);
      i := j + 1;
    }
  }

  lemma EraseMiddle<T>(a: seq<T>, q: seq<T>, b: seq<T>, k: nat)
    requires k < |q|
    ensures var s := a + q + b;
            s[..|a| + k] + s[|a| + k + 1..] == a + (q[..k] + q[k + 1..]) + b
  {
    var s := a + q + b;
    assert s[..|a| + k] == a + q[..k];
    assert s[|a| + k + 1..] == q[k + 1..] + b;
  }

  /** All elements of all rows. */
  function Members<T>(qs: seq<seq<T>>): set<T> {
    set q <- qs, x <- q :: x
  }

  lemma MemberAt<T>(qs: seq<seq<T>>, i: nat, k: nat)
    requires i < |qs| && k < |qs[i]|
    ensures qs[i][k] in Members(qs)
  {
    var q := qs[i];
    assert q in qs && q[k] in q;
  }

  lemma FindMember<T>(qs: seq<seq<T>>, x: T) returns (i: nat, k: nat)
    requires x in Members(qs)
    ensures i < |qs| && k < |qs[i]| && qs[i][k] == x
  {
    var q :| q in qs && x in q;
    i :| i < |qs| && qs[i] == q;
    k :| k < |q| && q[k] == x;
  }

  lemma MembersEmptyRow<T>(qs: seq<seq<T>>, rs: seq<seq<T>>, i: nat)
    requires WithEntry(qs, rs, i) && rs[i] == []
    ensures Members(rs) == Members(qs)
  {
    assert forall j | 0 <= j < |rs| && j != i :: rs[j] == qs[if j < i then j else j - 1];
  }

  lemma MembersAppend<T>(qs: seq<seq<T>>, i: nat, x: T)
    requires i < |qs|
    ensures Members(qs[i := qs[i] + [x]]) == Members(qs) + {x}
  {
    var r := qs[i := qs[i] + [x]];
    forall y | y in Members(r) ensures y in Members(qs) + {x} {
      var j, m := FindMember(r, y);
      if y != x { MemberAt(qs, j, m); }
    }
    forall y | y in Members(qs) ensures y in Members(r) {
      var j, m := FindMember(qs, y);
      MemberAt(r, j, m);
    }
    MemberAt(r, i, |qs[i]|);
  }

  lemma MembersErase<T>(qs: seq<seq<T>>, i: nat, k: nat)
    requires i < |qs| && k < |qs[i]|
    requires forall j, m | 0 <= j < |qs| && 0 <= m < |qs[j]| && qs[j][m] == qs[i][k] :: (j, m) == (i, k)
    ensures Members(qs[i := qs[i][..k] + qs[i][k + 1..]]) == Members(qs) - {qs[i][k]}
  {
    var r := qs[i := qs[i][..k] + qs[i][k + 1..]];
    forall y | y in Members(r) ensures y in Members(qs) - {qs[i][k]} {
      var j, m := FindMember(r, y);
      MemberAt(qs, j, if j != i || m < k then m else m + 1);
    }
    forall y | y in Members(qs) - {qs[i][k]} ensures y in Members(r) {
      var j, m := FindMember(qs, y);
      MemberAt(r, j, if j != i || m < k then m else m - 1);
    }
  }
}
