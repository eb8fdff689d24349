/**
 A pass that runs alone is a whole run: the calls of one worker, one after the other, with nothing in
 between. What is shown about passes therefore happens in reachable states.
 */
module LonePass {
  import opened Wrappers
  import opened Api
  import opened Store
  import opened Machine
  import opened System

  lemma {:induction false} RunsConcat(y: System, a: seq<Event>, b: seq<Event>)
    ensures Runs(y, a + b) == Runs(Runs(y, a), b)
    decreases |b|
  {
    hide Next;
    if b == [] {
      assert a + b == a;
    } else {
      assert (a + b)[..|a + b| - 1] == a + b[..|b| - 1];
      RunsConcat(y, a, b[..|b| - 1]);
    }
  }

  lemma OneEvent(y: System, e: Event)
    ensures Runs(y, [e]) == Next(y, e)
  {
    hide Next;
    assert [e][..0] == [];
    assert Runs(y, []) == y;
  }

  lemma {:induction false} RunIsCalls(y: System, k: Key, tape: seq<Reply>) returns (es: seq<Event>)
    requires k in y.workers && !y.workers[k].pc.Done?
    ensures forall e :: e in es ==> e.Call? && e.key == k
    ensures Runs(y, es).c == Run(y.workers[k], y.c, tape).0 && Runs(y, es).workers == y.workers - {k}
    decreases Phase(y.workers[k].pc), ListsLeft(y.workers[k])
  {
    hide Step, Runs, ReadyAfter;
    var w, r := y.workers[k], Head(tape);
    StepMakesProgress(w, y.c, r);
    var e := Call(k, r);
    var z := Next(y, e);
    OneEvent(y, e);
    if Step(w, y.c, r).0.pc.Done? {
      es := [e];
    } else {
      var rest := RunIsCalls(z, k, Tail(tape));
      RunsConcat(y, [e], rest);
      es := [e] + rest;
    }
  }

  /** Picking a key up and making the calls of its pass leads to the world the pass leads to. */
  lemma {:induction false} PassIsARun(y: System, k: Key, tape: seq<Reply>) returns (es: seq<Event>)
    requires k !in y.workers
    ensures forall e :: e in es ==> e == Enqueue(k) || (e.Call? && e.key == k)
    ensures Runs(y, es).c == Pass(k, y.c, tape).0 && Runs(y, es).workers == y.workers
  {
    hide Run, Runs, NewWorker;
    assert NewWorker(k).pc == Start by { StartsAtStart(k); }
    OneEvent(y, Enqueue(k));
    var calls := RunIsCalls(Next(y, Enqueue(k)), k, tape);
    RunsConcat(y, [Enqueue(k)], calls);
    es := [Enqueue(k)] + calls;
    assert y.workers[k := NewWorker(k)] - {k} == y.workers;
  }

  lemma StartsAtStart(k: Key)
    ensures NewWorker(k).pc == Start
  {
  }

  // ---------- runs that are built up ----------

  lemma Then(y: System, es: seq<Event>, e: Event)
    ensures Runs(y, es + [e]) == Next(Runs(y, es), e)
  {
    hide Next;
    assert (es + [e])[..|es|] == es;
  }

  /** A run, and then a pass over `k` in which no call fails. */
  lemma ThenPass(y: System, es: seq<Event>, k: Key) returns (more: seq<Event>)
    requires k !in Runs(y, es).workers
    ensures es <= more && forall j :: |es| <= j < |more| ==> more[j] == Enqueue(k) || (more[j].Call? && more[j].key == k)
    ensures Runs(y, more).c == Pass(k, Runs(y, es).c, []).0 && Runs(y, more).workers == Runs(y, es).workers
  {
    hide Runs, Run;
    var calls := PassIsARun(Runs(y, es), k, []);
    RunsConcat(y, es, calls);
    more := es + calls;
  }
}
