/** Small types and arithmetic shared by the models. */
module Common {

  datatype Option<+T> = None | Some(value: T)

  type Byte = n: int | 0 <= n < 256
  type Bytes = seq<Byte>

  /** Where an address does not say from where. */
  predicate Unspecified(address: string) {
    address == "0.0.0.0" || address == "::" || address == ""
  }

  function Min(a: int, b: int): int {
    if a < b then a else b
  }

  function Max(a: int, b: int): int {
    if a > b then a else b
  }

  datatype Span = Span(first: int, last: int)

  /** The times from the earlier start to the later end. */
  function Hull(a: Span, b: Span): Span {
    Span(Min(a.first, b.first), Max(a.last, b.last))
  }

  predicate Ascending(s: seq<int>) {
    forall i, j :: 0 <= i < j < |s| ==> s[i] < s[j]
  }

  predicate NoRepeats<T(==)>(s: seq<T>) {
    forall i, j :: 0 <= i < j < |s| ==> s[i] != s[j]
  }

  lemma OneInFront<T>(x: T, rest: seq<T>)
    ensures forall i :: 0 <= i < |[x] + rest| ==> ([x] + rest)[i] == x || ([x] + rest)[i] in rest
    ensures forall i :: 1 <= i < |[x] + rest| ==> ([x] + rest)[i] == rest[i - 1]
  {
  }

  /** `Math.floor(at / width) * width`: the start of the window holding `at`. */
  function WindowStart(at: int, width: int): int
    requires width > 0
  {
    at / width * width
  }

  lemma WindowStartHolds(at: int, width: int)
    requires width > 0
    ensures WindowStart(at, width) <= at < WindowStart(at, width) + width
    ensures WindowStart(at, width) % width == 0
  {
    var q := at / width;
    assert at == q * width + at % width;
    assert (q * width) % width == 0 by { MultipleMod(q, width); }
  }

  lemma MultipleMod(q: int, width: int)
    requires width > 0
    ensures (q * width) % width == 0
  {
    var d, r := (q * width) / width, (q * width) % width;
    assert (q - d) * width == r;
    MulBounds(q - d, width);
  }

  lemma MulBounds(a: int, width: int)
    requires width > 0
    ensures a >= 1 ==> a * width >= width
    ensures a <= -1 ==> a * width <= -width
  {
  }

  /** Any element of a non-empty set. */
  method AnyOf<T>(s: set<T>) returns (x: T)
    requires s != {}
    ensures x in s
  {
    x :| x in s;
  }

  lemma SomeMember<T>(s: set<T>) returns (x: T)
    requires s != {}
    ensures x in s
  {
    x :| x in s;
  }

  /** MIN over a non-empty column. */
  method LeastOf(s: set<int>) returns (least: int)
    requires s != {}
    ensures least in s && forall x <- s :: least <= x
  {
    least := AnyOf(s);
    var rest := s - {least};
    while rest != {}
      invariant rest <= s && least in s
      invariant forall x <- s :: x in rest || least <= x
      decreases |rest|
    {
      var x := AnyOf(rest);
      least, rest := Min(least, x), rest - {x};
    }
  }

  /** MAX over a non-empty column. */
  method GreatestOf(s: set<int>) returns (greatest: int)
    requires s != {}
    ensures greatest in s && forall x <- s :: x <= greatest
  {
    greatest := AnyOf(s);
    var rest := s - {greatest};
    while rest != {}
      invariant rest <= s && greatest in s
      invariant forall x <- s :: x in rest || x <= greatest
      decreases |rest|
    {
      var x := AnyOf(rest);
      greatest, rest := Max(greatest, x), rest - {x};
    }
  }

  lemma {:induction false} GreatestExists(s: set<int>) returns (m: int)
    requires s != {}
    ensures m in s && forall x <- s :: x <= m
  {
    var y := SomeMember(s);
    var rest := s - {y};
    assert forall x <- s :: x == y || x in rest;
    m := y;
    if rest != {} {
      var n := GreatestExists(rest);
      m := Max(y, n);
    }
  }

  /** MAX over a column that may be empty. */
  ghost predicate IsMax(column: set<int>, max: Option<int>) {
    if column == {} then max == None else max.Some? && max.value in column && forall x <- column :: x <= max.value
  }

  ghost function MaxOf(column: set<int>): (max: Option<int>)
    ensures IsMax(column, max)
  {
    if column == {} then None
    else
      GreatestIsThere(column);
      var m :| m in column && forall x <- column :: x <= m;
      Some(m)
  }

  lemma GreatestIsThere(s: set<int>)
    requires s != {}
    ensures exists m :: m in s && forall x <- s :: x <= m
  {
    var m := GreatestExists(s);
  }

  lemma PartsAddUp<T>(whole: set<T>, part: set<T>)
    requires part <= whole
    ensures |part| + |whole - part| == |whole|
  {
    assert whole == part + (whole - part);
  }

  /** Renaming the members of a set one to one keeps its size. */
  lemma {:induction false} SameSize<A, B>(a: set<A>, b: set<B>, f: A -> B)
    requires forall x, y :: x in a && y in a && f(x) == f(y) ==> x == y
    requires b == set x <- a :: f(x)
    ensures |a| == |b|
  {
    if a != {} {
      var x :| x in a;
      var a', b' := a - {x}, b - {f(x)};
      assert b' == set y <- a' :: f(y);
      SameSize(a', b', f);
    }
  }

  /** SQLite's UPPER, which knows the ASCII letters only. */
  function Upper(s: string): string {
    seq(|s|, i requires 0 <= i < |s| =>
      if 'a' <= s[i] <= 'z' then (s[i] as int - 32) as char else s[i])
  }

  /** SQLite's LOWER, likewise. */
  function Lower(s: string): string {
    seq(|s|, i requires 0 <= i < |s| =>
      if 'A' <= s[i] <= 'Z' then (s[i] as int + 32) as char else s[i])
  }

  lemma MultisetWithout<T>(s: seq<T>, i: nat)
    requires i < |s|
    ensures multiset(s) == multiset(s[..i] + s[i + 1..]) + multiset{s[i]}
  {
    assert s == s[..i] + [s[i]] + s[i + 1..];
  }

  lemma InsertedOnce<T>(s: seq<T>, at: nat, x: T)
    requires at <= |s|
    ensures multiset(s[..at] + [x] + s[at..]) == multiset(s) + multiset{x}
  {
    assert s == s[..at] + s[at..];
  }
}
