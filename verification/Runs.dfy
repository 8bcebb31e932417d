/**
 Runs of any step function: what is kept, what is observed along the way, and where something
 that holds in the end began.
 */
module Runs {

  /** The state after the events, from `s`. */
  function AfterAll<S, E>(step: (S, E) -> S, s: S, events: seq<E>): S
    decreases |events|
  {
    if events == [] then s else step(AfterAll(step, s, events[..|events| - 1]), events[|events| - 1])
  }

  /** What is observed of each step. */
  function Trace<S, E, M>(step: (S, E) -> S, observe: (S, E) -> M, s: S, events: seq<E>): (trace: seq<M>)
    ensures |trace| == |events|
    decreases |events|
  {
    if events == [] then []
    else
      var before := events[..|events| - 1];
      Trace(step, observe, s, before) + [observe(AfterAll(step, s, before), events[|events| - 1])]
  }

  lemma {:induction false} Keeps<S(!new), E(!new)>(
    step: (S, E) -> S, inv: S -> bool, allowed: E -> bool, s: S, events: seq<E>)
    requires inv(s)
    requires forall t, e :: inv(t) && allowed(e) ==> inv(step(t, e))
    requires forall i :: 0 <= i < |events| ==> allowed(events[i])
    ensures inv(AfterAll(step, s, events))
    decreases |events|
  {
    if events != [] {
      Keeps(step, inv, allowed, s, events[..|events| - 1]);
    }
  }

  lemma {:induction false} AfterJoin<S, E>(step: (S, E) -> S, s: S, a: seq<E>, b: seq<E>)
    ensures AfterAll(step, s, a + b) == AfterAll(step, AfterAll(step, s, a), b)
    decreases |b|
  {
    if b == [] {
      assert a + b == a;
    } else {
      var k := |b| - 1;
      assert (a + b)[..|a + b| - 1] == a + b[..k];
      AfterJoin(step, s, a, b[..k]);
    }
  }

  lemma AfterThree<S, E>(step: (S, E) -> S, s: S, a: seq<E>, b: seq<E>, c: seq<E>)
    ensures AfterAll(step, s, a + (b + c)) == AfterAll(step, AfterAll(step, AfterAll(step, s, a), b), c)
  {
    AfterJoin(step, s, a, b + c);
    AfterJoin(step, AfterAll(step, s, a), b, c);
  }

  lemma {:induction false} TraceJoin<S, E, M>(step: (S, E) -> S, observe: (S, E) -> M, s: S, a: seq<E>, b: seq<E>)
    ensures Trace(step, observe, s, a + b) ==
            Trace(step, observe, s, a) + Trace(step, observe, AfterAll(step, s, a), b)
    decreases |b|
  {
    if b == [] {
      assert a + b == a;
    } else {
      var k := |b| - 1;
      assert (a + b)[..|a + b| - 1] == a + b[..k];
      TraceJoin(step, observe, s, a, b[..k]);
      AfterJoin(step, s, a, b[..k]);
    }
  }

  lemma {:induction false} TraceAt<S, E, M>(step: (S, E) -> S, observe: (S, E) -> M, s: S, events: seq<E>, n: nat)
    requires n < |events|
    ensures Trace(step, observe, s, events)[..n] == Trace(step, observe, s, events[..n])
    ensures Trace(step, observe, s, events)[n] == observe(AfterAll(step, s, events[..n]), events[n])
    decreases |events|
  {
    var before := events[..|events| - 1];
    if n < |before| {
      TraceAt(step, observe, s, before, n);
      assert before[..n] == events[..n];
    }
  }

  /** A view that changes with what is observed is, at the end, the observations replayed. */
  lemma {:induction false} Replays<S(!new), E(!new), V, M>(
    step: (S, E) -> S, observe: (S, E) -> M, view: S -> V, change: (V, M) -> V, s: S, events: seq<E>)
    requires forall t, e :: view(step(t, e)) == change(view(t), observe(t, e))
    ensures view(AfterAll(step, s, events)) == AfterAll(change, view(s), Trace(step, observe, s, events))
    decreases |events|
  {
    if events != [] {
      Replays(step, observe, view, change, s, events[..|events| - 1]);
      var trace := Trace(step, observe, s, events);
      assert trace[..|trace| - 1] == Trace(step, observe, s, events[..|events| - 1]);
    }
  }

  /** The step at which something began that holds in the end and did not in the beginning. */
  ghost predicate Begins<S(!new), E(!new)>(step: (S, E) -> S, has: S -> bool, s: S, events: seq<E>, m: nat) {
    && m < |events|
    && !has(AfterAll(step, s, events[..m]))
    && has(step(AfterAll(step, s, events[..m]), events[m]))
  }

  lemma {:induction false} Began<S(!new), E(!new)>(step: (S, E) -> S, has: S -> bool, s: S, events: seq<E>)
    returns (m: nat)
    requires !has(s) && has(AfterAll(step, s, events))
    ensures Begins(step, has, s, events, m)
    decreases |events|
  {
    var before := events[..|events| - 1];
    if has(AfterAll(step, s, before)) {
      m := Began(step, has, s, before);
      assert before[..m] == events[..m];
    } else {
      m := |before|;
    }
  }

  /** If whatever begins begins only where it is allowed to, then it was allowed where it began. */
  lemma BeganRightly<S(!new), E(!new)>(
    step: (S, E) -> S, inv: S -> bool, has: S -> bool, right: S -> bool, s: S, events: seq<E>) returns (m: nat)
    requires inv(s) && !has(s) && has(AfterAll(step, s, events))
    requires forall t, e :: inv(t) ==> inv(step(t, e))
    requires forall t, e :: inv(t) && !has(t) && has(step(t, e)) ==> right(t)
    ensures m < |events| && right(AfterAll(step, s, events[..m]))
    ensures !has(AfterAll(step, s, events[..m])) && has(AfterAll(step, s, events[..m + 1]))
  {
    m := Began(step, has, s, events);
    AfterNext(step, s, events, m);
    Keeps(step, inv, (e: E) => true, s, events[..m]);
  }

  lemma AfterNext<S, E>(step: (S, E) -> S, s: S, events: seq<E>, m: nat)
    requires m < |events|
    ensures AfterAll(step, s, events[..m + 1]) == step(AfterAll(step, s, events[..m]), events[m])
  {
    assert events[..m + 1][..m] == events[..m];
  }

  function CountOf<M>(p: M -> bool, trace: seq<M>): nat {
    if trace == [] then 0 else CountOf(p, trace[..|trace| - 1]) + One(p(trace[|trace| - 1]))
  }

  function One(b: bool): nat {
    if b then 1 else 0
  }

  predicate Yes(b: bool) {
    b
  }

  /** If each marked step spends a credit and only paying steps give one, marked steps never outnumber
      the paying ones by more than the credit there was. */
  lemma {:induction false} Potential<S(!new), E(!new), M>(
    step: (S, E) -> S, mark: (S, E) -> bool, observe: (S, E) -> M, pays: M -> bool, credit: S -> nat,
    s: S, events: seq<E>)
    requires forall t, e :: One(mark(t, e)) + credit(step(t, e)) <= credit(t) + One(pays(observe(t, e)))
    ensures CountOf(Yes, Trace(step, mark, s, events)) + credit(AfterAll(step, s, events)) <=
            credit(s) + CountOf(pays, Trace(step, observe, s, events))
    decreases |events|
  {
    if events != [] {
      var before := events[..|events| - 1];
      Potential(step, mark, observe, pays, credit, s, before);
      var marks, seen := Trace(step, mark, s, events), Trace(step, observe, s, events);
      assert marks[..|marks| - 1] == Trace(step, mark, s, before);
      assert seen[..|seen| - 1] == Trace(step, observe, s, before);
    }
  }

  lemma {:induction false} CountJoin<M>(p: M -> bool, a: seq<M>, b: seq<M>)
    ensures CountOf(p, a + b) == CountOf(p, a) + CountOf(p, b)
    decreases |b|
  {
    if b == [] {
      assert a + b == a;
    } else {
      assert (a + b)[..|a + b| - 1] == a + b[..|b| - 1];
      CountJoin(p, a, b[..|b| - 1]);
    }
  }

  /** One event ahead of the others. */
  lemma TraceAhead<S, E, M>(step: (S, E) -> S, observe: (S, E) -> M, s: S, e: E, events: seq<E>)
    ensures Trace(step, observe, s, [e] + events) == [observe(s, e)] + Trace(step, observe, step(s, e), events)
  {
    TraceJoin(step, observe, s, [e], events);
    assert [e][..0] == [];
    assert Trace(step, observe, s, [e]) == [] + [observe(s, e)];
  }

  /** What holds of no events and is kept by one more holds of all. */
  lemma {:induction false} ByEvents<E(!new)>(holds: seq<E> -> bool, events: seq<E>)
    requires holds([]) && forall before, e :: holds(before) ==> holds(before + [e])
    ensures holds(events)
    decreases |events|
  {
    if events != [] {
      var before := events[..|events| - 1];
      ByEvents(holds, before);
      assert events == before + [events[|events| - 1]];
    }
  }

  // ---- Bringing something about -----------------------------------------------------------

  predicate AllOf<M>(p: M -> bool, trace: seq<M>) {
    forall i :: 0 <= i < |trace| ==> p(trace[i])
  }

  /** The events mark a step, and all that is observed along the way is allowed. */
  predicate BringsBy<S, E, M>(
    step: (S, E) -> S, observe: (S, E) -> M, allowed: M -> bool, mark: (S, E) -> bool, s: S, events: seq<E>)
  {
    AllOf(allowed, Trace(step, observe, s, events)) && CountOf(Yes, Trace(step, mark, s, events)) > 0
  }

  ghost predicate Brings<S(!new), E(!new), M>(
    step: (S, E) -> S, observe: (S, E) -> M, allowed: M -> bool, mark: (S, E) -> bool, s: S)
  {
    exists events :: BringsBy(step, observe, allowed, mark, s, events)
  }

  lemma MarkedAhead(m: bool, marks: seq<bool>)
    requires m || CountOf(Yes, marks) > 0
    ensures CountOf(Yes, [m] + marks) > 0
  {
    CountJoin(Yes, [m], marks);
    assert [m][..0] == [];
  }

  lemma AllAhead<M>(p: M -> bool, x: M, trace: seq<M>)
    requires p(x) && AllOf(p, trace)
    ensures AllOf(p, [x] + trace)
  {}

  lemma AllOfLast<M>(p: M -> bool, trace: seq<M>, x: M)
    ensures AllOf(p, trace + [x]) <==> AllOf(p, trace) && p(x)
  {
    assert forall i :: 0 <= i < |trace| ==> (trace + [x])[i] == trace[i];
    assert (trace + [x])[|trace|] == x;
  }

  lemma BringsEarlier<S(!new), E(!new), M>(
    step: (S, E) -> S, observe: (S, E) -> M, allowed: M -> bool, mark: (S, E) -> bool, s: S, e: E)
    requires allowed(observe(s, e)) && (mark(s, e) || Brings(step, observe, allowed, mark, step(s, e)))
    ensures Brings(step, observe, allowed, mark, s)
  {
    var events: seq<E> := [];
    if !mark(s, e) {
      events :| BringsBy(step, observe, allowed, mark, step(s, e), events);
    }
    TraceAhead(step, observe, s, e, events);
    TraceAhead(step, mark, s, e, events);
    MarkedAhead(mark(s, e), Trace(step, mark, step(s, e), events));
    AllAhead(allowed, observe(s, e), Trace(step, observe, step(s, e), events));
    assert BringsBy(step, observe, allowed, mark, s, [e] + events);
  }

  /** From a jammed state nothing is marked by events that are all allowed. */
  lemma {:induction false} NeverBrought<S(!new), E(!new), M>(
    step: (S, E) -> S, observe: (S, E) -> M, allowed: M -> bool, mark: (S, E) -> bool, jam: S -> bool,
    s: S, events: seq<E>)
    requires forall t, e :: jam(t) && allowed(observe(t, e)) ==> !mark(t, e) && jam(step(t, e))
    requires jam(s) && AllOf(allowed, Trace(step, observe, s, events))
    ensures CountOf(Yes, Trace(step, mark, s, events)) == 0 && jam(AfterAll(step, s, events))
    decreases |events|
  {
    if events != [] {
      var before, e := events[..|events| - 1], events[|events| - 1];
      AllOfLast(allowed, Trace(step, observe, s, before), observe(AfterAll(step, s, before), e));
      NeverBrought(step, observe, allowed, mark, jam, s, before);
      var marks := Trace(step, mark, s, events);
      assert marks[..|marks| - 1] == Trace(step, mark, s, before);
    }
  }

  // ---- Reaching states --------------------------------------------------------------------

  ghost predicate Leads<S(!new), E(!new)>(step: (S, E) -> S, s: S, t: S) {
    exists events :: AfterAll(step, s, events) == t
  }

  lemma LeadsHere<S(!new), E(!new)>(step: (S, E) -> S, s: S)
    ensures Leads(step, s, s)
  {
    assert AfterAll(step, s, []) == s;
  }

  lemma LeadsOn<S(!new), E(!new)>(step: (S, E) -> S, s: S, t: S, e: E)
    requires Leads(step, s, t)
    ensures Leads(step, s, step(t, e))
  {
    var events :| AfterAll(step, s, events) == t;
    assert (events + [e])[..|events|] == events;
    assert AfterAll(step, s, events + [e]) == step(t, e);
  }
}
