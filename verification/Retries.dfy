/**
 Work sent in chunks, each committed whole or rolled back, by attempts that die
 after some chunk and are made again from the first (src/agent-ingest-store.js).
 */
module Retries {
  import opened Common

  /** What sending chunk `n` makes of the state; None when it fails, and changes nothing. */
  type Sending<!T> = (T, nat) -> Option<T>

  /** The state an attempt leaves, and whether it failed. */
  datatype Reach<T> = Reach(state: T, failed: bool)

  /** An attempt that dies after `n` chunks; it ends at the first chunk that fails. */
  ghost function After<T>(send: Sending<T>, s: T, n: nat): Reach<T> {
    if n == 0 then Reach(s, false)
    else
      var before := After(send, s, n - 1);
      if before.failed then before
      else
        match send(before.state, n - 1)
        case Some(next) => Reach(next, false)
        case None => Reach(before.state, true)
  }

  /** Attempts that each died after so many chunks. */
  ghost function Attempts<T>(send: Sending<T>, s: T, died: seq<nat>): Reach<T> {
    if died == [] then Reach(s, false)
    else After(send, Attempts(send, s, died[..|died| - 1]).state, died[|died| - 1])
  }

  function Furthest(died: seq<nat>): nat {
    if died == [] then 0 else Max(Furthest(died[..|died| - 1]), died[|died| - 1])
  }

  /** The state is that of one uninterrupted attempt as far as the furthest got,
      and the last attempt failed only where an uninterrupted one would. */
  ghost predicate Converges<T>(send: Sending<T>, s: T, died: seq<nat>) {
    && Attempts(send, s, died).state == After(send, s, Furthest(died)).state
    && (died != [] ==> Attempts(send, s, died).failed == After(send, s, died[|died| - 1]).failed)
  }

  /** Chunk `c`, sent again to the state that `n` chunks left, changes nothing and does not fail. */
  ghost predicate AgainIsNoOp<T>(send: Sending<T>, s: T, n: nat, c: nat) {
    !After(send, s, n).failed && c < n ==> send(After(send, s, n).state, c) == Some(After(send, s, n).state)
  }

  lemma {:induction false} FailureStays<T>(send: Sending<T>, s: T, m: nat, n: nat)
    requires m <= n && After(send, s, m).failed
    ensures After(send, s, n) == After(send, s, m)
  {
    if m < n {
      FailureStays(send, s, m, n - 1);
    }
  }

  /** What an attempt leaves, when that is known chunk by chunk. */
  lemma {:induction false} AfterIs<T>(send: Sending<T>, states: nat -> T, fails: nat -> bool, n: nat)
    requires !fails(0)
    requires forall k: nat :: fails(k + 1) <==> fails(k) || send(states(k), k).None?
    requires forall k: nat :: !fails(k + 1) ==> send(states(k), k) == Some(states(k + 1))
    ensures After(send, states(0), n).failed == fails(n)
    ensures !fails(n) ==> After(send, states(0), n).state == states(n)
  {
    if n > 0 {
      AfterIs(send, states, fails, n - 1);
      assert fails(n - 1 + 1) <==> fails(n - 1) || send(states(n - 1), n - 1).None?;
    }
  }

  /** What every chunk keeps holds of every attempt. */
  lemma {:induction false} AttemptsKeep<T>(send: Sending<T>, s: T, keeps: (T, nat) -> bool, n: nat)
    requires keeps(s, 0)
    requires forall x: T, k: nat :: keeps(x, k) && send(x, k).Some? ==> keeps(send(x, k).value, k + 1)
    ensures !After(send, s, n).failed ==> keeps(After(send, s, n).state, n)
  {
    if n > 0 {
      AttemptsKeep(send, s, keeps, n - 1);
    }
  }

  function Mapped<S, T>(x: Option<S>, f: S -> T): Option<T> {
    match x case None => None case Some(y) => Some(f(y))
  }

  /** Two ways of sending that agree on a part of the state agree on it after every attempt. */
  lemma {:induction false} AttemptsAgree<S, T>(send: Sending<S>, s: S, other: Sending<T>, part: S -> T, n: nat)
    requires forall x: S, k: nat :: other(part(x), k) == Mapped(send(x, k), part)
    ensures After(other, part(s), n) == Reach(part(After(send, s, n).state), After(send, s, n).failed)
  {
    if n > 0 {
      AttemptsAgree(send, s, other, part, n - 1);
    }
  }

  /** The last chunk before a failure, if there was one. */
  lemma {:induction false} LastUnfailed<T>(send: Sending<T>, s: T, low: nat, m: nat) returns (n: nat)
    requires low <= m && !After(send, s, low).failed
    ensures low <= n <= m && !After(send, s, n).failed && After(send, s, n).state == After(send, s, m).state
  {
    if After(send, s, m).failed {
      n := LastUnfailed(send, s, low, m - 1);
    } else {
      n := m;
    }
  }

  /** An attempt after one of `m` chunks gets as far as the longer of the two. */
  lemma {:induction false} ResumeIsTheLonger<T>(send: Sending<T>, s: T, m: nat, n: nat)
    requires forall k: nat, c: nat :: AgainIsNoOp(send, s, k, c)
    ensures After(send, After(send, s, m).state, n)
            == Reach(After(send, s, Max(m, n)).state, After(send, s, n).failed)
  {
    if n > 0 {
      ResumeIsTheLonger(send, s, m, n - 1);
      if After(send, s, n - 1).failed {
        FailureStays(send, s, n - 1, n);
        FailureStays(send, s, n - 1, Max(m, n - 1));
        FailureStays(send, s, n - 1, Max(m, n));
      } else if n <= m {
        if After(send, s, n).failed {
          FailureStays(send, s, n, m);
        } else {
          var k := LastUnfailed(send, s, n, m);
          assert AgainIsNoOp(send, s, k, n - 1);
        }
      }
    }
  }

  lemma {:induction false} NoOpsConverge<T>(send: Sending<T>, s: T, died: seq<nat>)
    requires forall n: nat, c: nat :: AgainIsNoOp(send, s, n, c)
    ensures Converges(send, s, died)
  {
    if died != [] {
      NoOpsConverge(send, s, died[..|died| - 1]);
      ResumeIsTheLonger(send, s, Furthest(died[..|died| - 1]), died[|died| - 1]);
    }
  }

  lemma AttemptTwice<T>(send: Sending<T>, s: T, m: nat, n: nat)
    ensures Attempts(send, s, [m, n]) == After(send, After(send, s, m).state, n)
    ensures Furthest([m, n]) == Max(m, n)
  {
    var once: seq<nat>, twice: seq<nat> := [m], [m, n];
    assert twice[..1] == once && once[..0] == [];
    assert Attempts(send, s, []) == Reach(s, false) && Furthest([]) == 0;
    assert Attempts(send, s, once) == After(send, s, m) && Furthest(once) == m;
  }

  /** Two attempts, the second dying right before and right after chunk `c`, tell. */
  lemma ConvergingIsNoOp<T>(send: Sending<T>, s: T, n: nat, c: nat)
    requires Converges(send, s, [n, c]) && Converges(send, s, [n, c + 1])
    ensures AgainIsNoOp(send, s, n, c)
  {
    if !After(send, s, n).failed && c < n {
      AttemptTwice(send, s, n, c);
      AttemptTwice(send, s, n, c + 1);
      if After(send, s, c).failed { FailureStays(send, s, c, n); }
      if After(send, s, c + 1).failed { FailureStays(send, s, c + 1, n); }
    }
  }

  /** However often attempts die, and wherever, they converge; if and only if no
      chunk that is in changes anything, or fails, when it comes again. */
  lemma AttemptsConvergeIff<T>(send: Sending<T>, s: T)
    ensures (forall died: seq<nat> :: Converges(send, s, died)) <==> (forall n: nat, c: nat :: AgainIsNoOp(send, s, n, c))
  {
    if forall n: nat, c: nat :: AgainIsNoOp(send, s, n, c) {
      forall died: seq<nat> ensures Converges(send, s, died) {
        NoOpsConverge(send, s, died);
      }
    }
    if forall died: seq<nat> :: Converges(send, s, died) {
      forall n: nat, c: nat ensures AgainIsNoOp(send, s, n, c) {
        ConvergingIsNoOp(send, s, n, c);
      }
    }
  }
}
