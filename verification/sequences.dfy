/** Sequences without repeats, their front parts, and reading them from the back. */
module Sequences {
  ghost predicate NoRepeats<T>(s: seq<T>)
  {
    forall i, j :: 0 <= i < j < |s| ==> s[i] != s[j]
  }

  function Take<T>(s: seq<T>, n: nat): seq<T>
  {
    if s == [] || n == 0 then [] else [s[0]] + Take(s[1..], n - 1)
  }

  function Reversed<T>(s: seq<T>): (r: seq<T>)
    ensures |r| == |s| && forall i :: 0 <= i < |s| ==> r[i] == s[|s| - 1 - i]
  {
    if s == [] then [] else Reversed(s[1..]) + [s[0]]
  }

  lemma ReversedKeeps<T>(s: seq<T>)
    ensures forall x | x in s :: x in Reversed(s)
    ensures forall x | x in Reversed(s) :: x in s
    ensures NoRepeats(s) ==> NoRepeats(Reversed(s))
  {
    forall x | x in s
      ensures x in Reversed(s)
    {
      var j :| 0 <= j < |s| && s[j] == x;
      assert Reversed(s)[|s| - 1 - j] == x;
    }
  }

  function RemoveAt<T>(s: seq<T>, i: nat): seq<T>
    requires i < |s|
  {
    s[..i] + s[i + 1..]
  }

  lemma RemoveAtShifts<T>(s: seq<T>, i: nat)
    requires NoRepeats(s) && i < |s|
    ensures |RemoveAt(s, i)| == |s| - 1
    ensures forall j :: 0 <= j < i ==> RemoveAt(s, i)[j] == s[j]
    ensures forall j :: i <= j < |s| - 1 ==> RemoveAt(s, i)[j] == s[j + 1]
    ensures forall j :: 0 <= j < |s| && j != i ==> s[j] in RemoveAt(s, i)
    ensures NoRepeats(RemoveAt(s, i)) && s[i] !in RemoveAt(s, i)
    ensures forall x | x in RemoveAt(s, i) :: x in s
  {
    var rest := RemoveAt(s, i);
    forall j | 0 <= j < |s| && j != i
      ensures s[j] in rest
    {
      assert rest[if j < i then j else j - 1] == s[j];
    }
  }

  lemma Differ<T>(s: seq<T>, i: nat)
    requires NoRepeats(s) && i < |s|
    ensures forall j :: 0 <= j < |s| && j != i ==> s[j] != s[i]
  {
  }

  lemma NoRepeatsCons<T>(x: T, s: seq<T>)
    requires NoRepeats(s) && x !in s
    ensures NoRepeats([x] + s)
  {
  }

  lemma NoRepeatsTail<T>(s: seq<T>)
    requires NoRepeats(s) && s != []
    ensures NoRepeats(s[1..]) && s[0] !in s[1..]
  {
  }

  lemma NoRepeatsSnoc<T>(s: seq<T>, x: T)
    requires NoRepeats(s) && x !in s
    ensures NoRepeats(s + [x])
  {
  }

  /** A sequence without repeats is no longer than any set it draws on. */
  lemma {:induction false} NoRepeatsFit<T>(s: seq<T>, within: set<T>)
    requires NoRepeats(s) && forall x :: x in s ==> x in within
    ensures |s| <= |within|
    decreases |s|
  {
    if s == [] {
    } else {
      NoRepeatsTail(s);
      NoRepeatsFit(s[1..], within - {s[0]});
    }
  }

  lemma NoRepeatsMiss<T>(s: seq<T>, within: set<T>, x: T)
    requires NoRepeats(s) && (forall y :: y in s ==> y in within) && x in within && x !in s
    ensures |s| < |within|
  {
    NoRepeatsFit(s, within - {x});
  }

  lemma {:induction false} TakeIsPrefix<T>(s: seq<T>, n: nat)
    ensures Take(s, n) == if n < |s| then s[..n] else s
  {
    if s != [] && n > 0 {
      TakeIsPrefix(s[1..], n - 1);
    }
  }

  lemma {:induction false} TakeOfTake<T>(s: seq<T>, n: nat, i: nat)
    requires i <= n
    ensures Take(Take(s, n), i) == Take(s, i)
  {
    if s != [] && i > 0 {
      TakeOfTake(s[1..], n - 1, i - 1);
    }
  }

  lemma RemoveAtCons<T>(s: seq<T>, i: nat)
    requires i < |s|
    ensures i == 0 ==> RemoveAt(s, i) == s[1..]
    ensures i > 0 ==> s[1..][i - 1] == s[i] && RemoveAt(s, i) == [s[0]] + RemoveAt(s[1..], i - 1)
  {
  }

  /** Removing an item in front of the last one moves the last one into its place. */
  function MoveLast<T>(s: seq<T>, i: nat): seq<T>
  {
    if i < |s| then s[..i] + [s[|s| - 1]] + s[i..|s| - 1] else s
  }

  function MoveAll<T>(s: seq<T>, moved: seq<nat>): seq<T>
    decreases |moved|
  {
    if moved == [] then s else MoveAll(MoveLast(s, moved[0]), moved[1..])
  }

  lemma MovedTo<T>(s: seq<T>, i: nat, j: nat)
    requires i < |s| && j < |s|
    ensures |MoveLast(s, i)| == |s|
    ensures MoveLast(s, i)[j] == s[if j < i then j else if j == i then |s| - 1 else j - 1]
  {
  }

  lemma MovedFrom<T>(s: seq<T>, i: nat, j: nat)
    requires i < |s| && j < |s|
    ensures |MoveLast(s, i)| == |s|
    ensures MoveLast(s, i)[if j == |s| - 1 then i else if j < i then j else j + 1] == s[j]
  {
  }

  lemma MoveLastKeepsMembers<T>(s: seq<T>, i: nat)
    ensures |MoveLast(s, i)| == |s|
    ensures forall x | x in s :: x in MoveLast(s, i)
    ensures forall x | x in MoveLast(s, i) :: x in s
  {
    if i < |s| {
      MovedTo(s, i, i);
      hide MoveLast;
      var t := MoveLast(s, i);
      forall j | 0 <= j < |s|
        ensures s[j] in t
      {
        MovedFrom(s, i, j);
      }
      forall j | 0 <= j < |t|
        ensures t[j] in s
      {
        MovedTo(s, i, j);
      }
    }
  }

  lemma MoveLastKeepsApart<T>(s: seq<T>, i: nat)
    requires NoRepeats(s)
    ensures NoRepeats(MoveLast(s, i))
  {
    if i < |s| {
      MovedTo(s, i, i);
      hide MoveLast;
      var t := MoveLast(s, i);
      forall j, l | 0 <= j < l < |t|
        ensures t[j] != t[l]
      {
        MovedTo(s, i, j);
        MovedTo(s, i, l);
      }
    }
  }

  /** Moving items about neither adds nor loses any. */
  lemma {:induction false} MoveAllKeeps<T>(s: seq<T>, moved: seq<nat>)
    ensures |MoveAll(s, moved)| == |s|
    ensures forall x | x in s :: x in MoveAll(s, moved)
    ensures forall x | x in MoveAll(s, moved) :: x in s
    ensures NoRepeats(s) ==> NoRepeats(MoveAll(s, moved))
    decreases |moved|
  {
    hide NoRepeats, MoveLast;
    if moved == [] {
    } else {
      MoveLastKeepsMembers(s, moved[0]);
      if NoRepeats(s) {
        MoveLastKeepsApart(s, moved[0]);
      }
      MoveAllKeeps(MoveLast(s, moved[0]), moved[1..]);
    }
  }

  /** Gaps are closed one after another, each by what is then the last item. */
  lemma GapsCloseInOrder<T>(a: T, b: T, c: T, d: T)
    ensures MoveAll([a, b, c, d], [0, 1]) == [d, c, a, b]
    ensures MoveAll([a, b, c, d], [3]) == [a, b, c, d] == MoveAll([a, b, c, d], [4])
  {
    assert [a, b, c, d][0..3] == [a, b, c] && MoveLast([a, b, c, d], 0) == [d, a, b, c];
    assert [0, 1][1..] == [1] && [1][1..] == [] && [3][1..] == [] && [4][1..] == [];
    assert MoveLast([d, a, b, c], 1) == [d, c, a, b];
    assert MoveAll([d, a, b, c], [1]) == MoveAll([d, c, a, b], []);
  }
}
