/** Order-preserving unions: what one list adds to another, told apart by an optional key. */
module OrderedUnion {
  import opened Common

  function KeysOf<T>(key: T -> Option<string>, s: seq<T>): set<string> {
    if s == [] then {}
    else (if key(s[0]).Some? then {key(s[0]).value} else {}) + KeysOf(key, s[1..])
  }

  predicate IsNew<T>(key: T -> Option<string>, seen: set<string>, x: T) {
    key(x).Some? && key(x).value !in seen
  }

  /** The elements with a key outside `seen`. */
  function NewIn<T>(key: T -> Option<string>, seen: set<string>, s: seq<T>): seq<T> {
    if s == [] then []
    else if IsNew(key, seen, s[0]) then [s[0]] + NewIn(key, seen, s[1..])
    else NewIn(key, seen, s[1..])
  }

  /** `a`, then the elements of `b` whose key `a` does not have. */
  function Joined<T>(key: T -> Option<string>, a: seq<T>, b: seq<T>): seq<T> {
    a + NewIn(key, KeysOf(key, a), b)
  }

  lemma {:induction false} KeysOfConcat<T>(key: T -> Option<string>, a: seq<T>, b: seq<T>)
    ensures KeysOf(key, a + b) == KeysOf(key, a) + KeysOf(key, b)
  {
    if a == [] {
      assert a + b == b;
    } else {
      KeysOfConcat(key, a[1..], b);
      assert (a + b)[1..] == a[1..] + b;
    }
  }

  lemma {:induction false} NewInConcat<T>(key: T -> Option<string>, seen: set<string>, a: seq<T>, b: seq<T>)
    ensures NewIn(key, seen, a + b) == NewIn(key, seen, a) + NewIn(key, seen, b)
  {
    if a == [] {
      assert a + b == b;
    } else {
      NewInConcat(key, seen, a[1..], b);
      assert (a + b)[1..] == a[1..] + b;
    }
  }

  lemma {:induction false} NewInKeys<T>(key: T -> Option<string>, seen: set<string>, s: seq<T>)
    ensures KeysOf(key, NewIn(key, seen, s)) == KeysOf(key, s) - seen
  {
    if s != [] {
      NewInKeys(key, seen, s[1..]);
      if IsNew(key, seen, s[0]) { assert NewIn(key, seen, s)[1..] == NewIn(key, seen, s[1..]); }
    }
  }

  lemma {:induction false} NewInTwice<T>(key: T -> Option<string>, s: set<string>, t: set<string>, xs: seq<T>)
    ensures NewIn(key, s, NewIn(key, t, xs)) == NewIn(key, s + t, xs)
  {
    if xs != [] {
      NewInTwice(key, s, t, xs[1..]);
      if IsNew(key, t, xs[0]) { assert NewIn(key, t, xs)[1..] == NewIn(key, t, xs[1..]); }
    }
  }

  lemma {:induction false} NothingNew<T>(key: T -> Option<string>, seen: set<string>, s: seq<T>)
    requires KeysOf(key, s) <= seen
    ensures NewIn(key, seen, s) == []
  {
    if s != [] { NothingNew(key, seen, s[1..]); }
  }

  lemma JoinedKeys<T>(key: T -> Option<string>, a: seq<T>, b: seq<T>)
    ensures KeysOf(key, Joined(key, a, b)) == KeysOf(key, a) + KeysOf(key, b)
  {
    KeysOfConcat(key, a, NewIn(key, KeysOf(key, a), b));
    NewInKeys(key, KeysOf(key, a), b);
  }

  lemma JoinedAssociative<T>(key: T -> Option<string>, a: seq<T>, b: seq<T>, c: seq<T>)
    ensures Joined(key, Joined(key, a, b), c) == Joined(key, a, Joined(key, b, c))
  {
    var A, B := KeysOf(key, a), KeysOf(key, b);
    JoinedKeys(key, a, b);
    NewInConcat(key, A, b, NewIn(key, B, c));
    NewInTwice(key, A, B, c);
  }

  lemma JoinedAbsorbs<T>(key: T -> Option<string>, a: seq<T>, b: seq<T>)
    ensures Joined(key, Joined(key, a, b), b) == Joined(key, a, b)
  {
    JoinedKeys(key, a, b);
    NothingNew(key, KeysOf(key, Joined(key, a, b)), b);
  }

  // ---------------------------------------------------------------- first occurrences

  /** The elements of `s` outside `seen`, first occurrences only. */
  function Unseen(seen: set<string>, s: seq<string>): seq<string>
    decreases |s|
  {
    if s == [] then []
    else if s[0] in seen then Unseen(seen, s[1..])
    else [s[0]] + Unseen(seen + {s[0]}, s[1..])
  }

  /** `list(dict.fromkeys([*a, *b]))`. */
  function FirstsOf(a: seq<string>, b: seq<string>): seq<string> {
    Unseen({}, a + b)
  }

  function Elements(s: seq<string>): set<string> {
    if s == [] then {} else {s[0]} + Elements(s[1..])
  }

  lemma {:induction false} UnseenConcat(seen: set<string>, a: seq<string>, b: seq<string>)
    ensures Unseen(seen, a + b) == Unseen(seen, a) + Unseen(seen + Elements(a), b)
    decreases |a|
  {
    if a == [] {
      assert a + b == b && seen + Elements(a) == seen;
    } else {
      assert (a + b)[1..] == a[1..] + b;
      var seen' := if a[0] in seen then seen else seen + {a[0]};
      UnseenConcat(seen', a[1..], b);
      assert seen' + Elements(a[1..]) == seen + Elements(a);
    }
  }

  lemma {:induction false} UnseenTwice(outer: set<string>, inner: set<string>, s: seq<string>)
    requires inner <= outer
    ensures Unseen(outer, Unseen(inner, s)) == Unseen(outer, s)
    decreases |s|
  {
    if s != [] {
      if s[0] in inner {
        UnseenTwice(outer, inner, s[1..]);
      } else {
        assert Unseen(inner, s)[1..] == Unseen(inner + {s[0]}, s[1..]);
        UnseenTwice(if s[0] in outer then outer else outer + {s[0]}, inner + {s[0]}, s[1..]);
      }
    }
  }

  lemma {:induction false} UnseenElements(seen: set<string>, s: seq<string>)
    ensures Elements(Unseen(seen, s)) == Elements(s) - seen
    decreases |s|
  {
    if s != [] {
      UnseenElements(if s[0] in seen then seen else seen + {s[0]}, s[1..]);
      if s[0] !in seen { assert Unseen(seen, s)[1..] == Unseen(seen + {s[0]}, s[1..]); }
    }
  }

  lemma {:induction false} UnseenNone(seen: set<string>, s: seq<string>)
    requires Elements(s) <= seen
    ensures Unseen(seen, s) == []
    decreases |s|
  {
    if s != [] { UnseenNone(seen, s[1..]); }
  }

  lemma {:induction false} ElementsConcat(a: seq<string>, b: seq<string>)
    ensures Elements(a + b) == Elements(a) + Elements(b)
  {
    if a == [] {
      assert a + b == b;
    } else {
      ElementsConcat(a[1..], b);
      assert (a + b)[1..] == a[1..] + b;
    }
  }

  /** Removing repeats first does not change what a later union adds. */
  lemma FirstsThen(a: seq<string>, b: seq<string>)
    ensures Unseen({}, Unseen({}, a) + b) == Unseen({}, a + b)
  {
    var none: set<string> := {};
    UnseenConcat(none, Unseen(none, a), b);
    UnseenTwice(none, none, a);
    UnseenElements(none, a);
    UnseenConcat(none, a, b);
    assert Elements(a) - none == Elements(a);
  }

  lemma ThenFirsts(a: seq<string>, b: seq<string>)
    ensures Unseen({}, a + Unseen({}, b)) == Unseen({}, a + b)
  {
    var none: set<string> := {};
    UnseenConcat(none, a, Unseen(none, b));
    UnseenConcat(none, a, b);
    UnseenTwice(none + Elements(a), none, b);
  }

  lemma FirstsAssociative(a: seq<string>, b: seq<string>, c: seq<string>)
    ensures FirstsOf(FirstsOf(a, b), c) == FirstsOf(a, FirstsOf(b, c))
  {
    FirstsThen(a + b, c);
    ThenFirsts(a, b + c);
    assert a + (b + c) == (a + b) + c;
  }

  lemma FirstsAbsorb(a: seq<string>, b: seq<string>)
    ensures FirstsOf(FirstsOf(a, b), b) == FirstsOf(a, b)
  {
    var none: set<string> := {};
    FirstsThen(a + b, b);
    UnseenConcat(none, a + b, b);
    ElementsConcat(a, b);
    UnseenNone(none + Elements(a + b), b);
  }
}
