/** How often a number occurs in a sequence, as an explicit function: the sequences here are histories of
    connections, whose order is of no interest. */
module Counting {

  function Count(s: seq<nat>, c: nat): nat {
    if s == [] then 0 else Count(s[..|s| - 1], c) + (if s[|s| - 1] == c then 1 else 0)
  }

  // The same elements equally often.
  ghost predicate Permutes(a: seq<nat>, b: seq<nat>) {
    forall c: nat :: Count(a, c) == Count(b, c)
  }

  // Each of the n numbers from `lo` on once, and nothing else.
  ghost predicate Enumerates(s: seq<nat>, lo: nat, n: nat) {
    forall c: nat :: Count(s, c) == if lo <= c < lo + n then 1 else 0
  }

  ghost predicate NoDuplicates(s: seq<nat>) {
    forall i, j :: 0 <= i < j < |s| ==> s[i] != s[j]
  }

  lemma CountOneMore(s: seq<nat>, x: nat)
    ensures forall c: nat :: Count(s + [x], c) == Count(s, c) + (if c == x then 1 else 0)
  {
    assert (s + [x])[..|s|] == s;
  }

  lemma {:induction false} CountAppend(a: seq<nat>, b: seq<nat>, c: nat)
    ensures Count(a + b, c) == Count(a, c) + Count(b, c)
  {
    if b == [] {
      assert a + b == a;
    } else {
      CountAppend(a, b[..|b| - 1], c);
      assert (a + b)[..|a + b| - 1] == a + b[..|b| - 1];
    }
  }

  lemma {:induction false} CountMember(s: seq<nat>, c: nat)
    ensures Count(s, c) > 0 <==> c in s
  {
    if s != [] {
      CountMember(s[..|s| - 1], c);
      assert s == s[..|s| - 1] + [s[|s| - 1]];
    }
  }

  lemma {:induction false} CountNoDuplicates(s: seq<nat>)
    requires forall c: nat :: Count(s, c) <= 1
    ensures NoDuplicates(s)
  {
    if s != [] {
      var shorter, last := s[..|s| - 1], s[|s| - 1];
      forall c: nat
        ensures Count(shorter, c) <= 1
      {
        assert Count(s, c) <= 1;
      }
      CountNoDuplicates(shorter);
      assert Count(s, last) <= 1;
      CountMember(shorter, last);
      forall i, j | 0 <= i < j < |s|
        ensures s[i] != s[j]
      {
        assert s[i] == shorter[i];
      }
    }
  }

  lemma {:induction false} EnumeratesLength(s: seq<nat>, lo: nat, n: nat)
    requires Enumerates(s, lo, n)
    ensures |s| == n && NoDuplicates(s)
    ensures forall c: nat :: c in s <==> lo <= c < lo + n
  {
    forall c: nat
      ensures Count(s, c) <= 1 && (c in s <==> lo <= c < lo + n)
    {
      CountMember(s, c);
    }
    CountNoDuplicates(s);
    SameLength(s, lo, n);
  }

  lemma FirstIsMember(s: seq<nat>)
    ensures s == [] || s[0] in s
  {
  }

  lemma {:induction false} SameLength(s: seq<nat>, lo: nat, n: nat)
    requires NoDuplicates(s) && forall c: nat :: c in s <==> lo <= c < lo + n
    ensures |s| == n
  {
    if n == 0 {
      FirstIsMember(s);
    } else {
      var top := lo + n - 1;
      assert top in s;
      var i :| 0 <= i < |s| && s[i] == top;
      var rest := s[..i] + s[i + 1..];
      forall c: nat
        ensures c in rest <==> lo <= c < lo + (n - 1)
      {
        if c in s && c != top {
          var j :| 0 <= j < |s| && s[j] == c;
          assert rest[if j < i then j else j - 1] == c;
        }
      }
      SameLength(rest, lo, n - 1);
    }
  }

  lemma {:induction false} CountOfNoDuplicates(s: seq<nat>, c: nat)
    requires NoDuplicates(s)
    ensures Count(s, c) == if c in s then 1 else 0
  {
    if s != [] {
      var shorter, last := s[..|s| - 1], s[|s| - 1];
      assert forall i :: 0 <= i < |shorter| ==> shorter[i] == s[i] && s[i] != last;
      CountOfNoDuplicates(shorter, c);
      assert s == shorter + [last];
    }
  }

  lemma SameMembersPermute(a: seq<nat>, b: seq<nat>)
    requires NoDuplicates(a) && NoDuplicates(b) && forall c: nat :: c in a <==> c in b
    ensures Permutes(a, b)
  {
    forall c: nat
      ensures Count(a, c) == Count(b, c)
    {
      CountOfNoDuplicates(a, c);
      CountOfNoDuplicates(b, c);
    }
  }

  lemma MembersEnumerate(s: seq<nat>, lo: nat, n: nat)
    requires NoDuplicates(s) && forall c: nat :: c in s <==> lo <= c < lo + n
    ensures Enumerates(s, lo, n)
  {
    forall c: nat
      ensures Count(s, c) == if lo <= c < lo + n then 1 else 0
    {
      CountOfNoDuplicates(s, c);
    }
  }
}
