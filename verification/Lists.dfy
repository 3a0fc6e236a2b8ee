/** `filter` and a filtering `map` over sequences, read from the right so that a
    loop that appends one element at a time unfolds them once a step. */
module Lists {

  datatype Option<+T> = None | Some(value: T)

  function Filter<T>(p: T -> bool, s: seq<T>): (r: seq<T>)
    ensures |r| <= |s|
  {
    if s == [] then []
    else if p(s[|s| - 1]) then Filter(p, s[..|s| - 1]) + [s[|s| - 1]]
    else Filter(p, s[..|s| - 1])
  }

  function FilterMap<A, B>(f: A -> Option<B>, s: seq<A>): (r: seq<B>)
    ensures |r| <= |s|
  {
    if s == [] then []
    else if f(s[|s| - 1]).Some? then FilterMap(f, s[..|s| - 1]) + [f(s[|s| - 1]).value]
    else FilterMap(f, s[..|s| - 1])
  }

  lemma ConcatAssoc<T>(a: seq<T>, b: seq<T>, c: seq<T>)
    ensures a + b + c == a + (b + c)
  {
  }

  lemma {:induction false} FilterAppend<T>(p: T -> bool, a: seq<T>, b: seq<T>)
    ensures Filter(p, a + b) == Filter(p, a) + Filter(p, b)
  {
    if b == [] {
      assert a + b == a;
    } else {
      FilterAppend(p, a, b[..|b| - 1]);
      assert (a + b)[..|a + b| - 1] == a + b[..|b| - 1];
    }
  }

  lemma {:induction false} FilterMapAppend<A, B>(f: A -> Option<B>, a: seq<A>, b: seq<A>)
    ensures FilterMap(f, a + b) == FilterMap(f, a) + FilterMap(f, b)
  {
    if b == [] {
      assert a + b == a;
    } else {
      FilterMapAppend(f, a, b[..|b| - 1]);
      assert (a + b)[..|a + b| - 1] == a + b[..|b| - 1];
    }
  }

  lemma {:induction false} FilterMember<T>(p: T -> bool, s: seq<T>, x: T)
    ensures x in Filter(p, s) <==> x in s && p(x)
  {
    if s != [] {
      FilterMember(p, s[..|s| - 1], x);
      assert s == s[..|s| - 1] + [s[|s| - 1]];
    }
  }

  lemma {:induction false} FilterMapMember<A, B>(f: A -> Option<B>, s: seq<A>, y: B)
    ensures y in FilterMap(f, s) <==> exists x :: x in s && f(x) == Some(y)
  {
    if s != [] {
      var init, last := s[..|s| - 1], s[|s| - 1];
      FilterMapMember(f, init, y);
      assert s == init + [last];
      assert forall x :: x in s <==> x in init || x == last;
    }
  }

  lemma {:induction false} FilterAll<T>(p: T -> bool, s: seq<T>)
    requires forall i :: 0 <= i < |s| ==> p(s[i])
    ensures Filter(p, s) == s
  {
    if s != [] {
      FilterAll(p, s[..|s| - 1]);
    }
  }

  lemma {:induction false} FilterNone<T>(p: T -> bool, s: seq<T>)
    requires forall i :: 0 <= i < |s| ==> !p(s[i])
    ensures Filter(p, s) == []
  {
    if s != [] {
      FilterNone(p, s[..|s| - 1]);
    }
  }

  /** Filtering a list whose prefix fails and whose rest passes drops the prefix. */
  lemma {:induction false} FilterSplit<T>(p: T -> bool, s: seq<T>, n: nat)
    requires n <= |s|
    requires forall i :: 0 <= i < n ==> !p(s[i])
    requires forall i :: n <= i < |s| ==> p(s[i])
    ensures Filter(p, s) == s[n..]
  {
    if |s| == n {
      FilterNone(p, s);
    } else {
      FilterSplit(p, s[..|s| - 1], n);
    }
  }

  /** Filtering a list whose prefix passes and whose rest fails keeps the prefix. */
  lemma {:induction false} FilterPrefix<T>(p: T -> bool, s: seq<T>, n: nat)
    requires n <= |s|
    requires forall i :: 0 <= i < n ==> p(s[i])
    requires forall i :: n <= i < |s| ==> !p(s[i])
    ensures Filter(p, s) == s[..n]
  {
    if |s| == n {
      FilterAll(p, s);
    } else {
      FilterPrefix(p, s[..|s| - 1], n);
    }
  }

  lemma {:induction false} FilterCommute<T>(p: T -> bool, q: T -> bool, s: seq<T>)
    ensures Filter(p, Filter(q, s)) == Filter(q, Filter(p, s))
  {
    if s != [] {
      FilterCommute(p, q, s[..|s| - 1]);
      var x := s[|s| - 1];
      var a, b := Filter(q, s[..|s| - 1]), Filter(p, s[..|s| - 1]);
      assert (a + [x])[..|a|] == a && (b + [x])[..|b|] == b;
    }
  }

  lemma {:induction false} FilterStronger<T>(p: T -> bool, q: T -> bool, s: seq<T>)
    requires forall i :: 0 <= i < |s| && p(s[i]) ==> q(s[i])
    ensures Filter(p, Filter(q, s)) == Filter(p, s)
  {
    if s != [] {
      FilterStronger(p, q, s[..|s| - 1]);
      var x := s[|s| - 1];
      var a := Filter(q, s[..|s| - 1]);
      assert (a + [x])[..|a|] == a;
    }
  }

  /** How often `x` occurs. */
  function Count<T(==)>(s: seq<T>, x: T): nat {
    if s == [] then 0 else Count(s[..|s| - 1], x) + if s[|s| - 1] == x then 1 else 0
  }

  lemma {:induction false} CountAppend<T>(a: seq<T>, b: seq<T>, x: T)
    ensures Count(a + b, x) == Count(a, x) + Count(b, x)
  {
    if b == [] {
      assert a + b == a;
    } else {
      CountAppend(a, b[..|b| - 1], x);
      assert (a + b)[..|a + b| - 1] == a + b[..|b| - 1];
    }
  }
}
