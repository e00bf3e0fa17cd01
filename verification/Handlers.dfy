// What each handler of the kernel module does to one command, and what becomes
// of that command in the rest of the run.

module Handlers {
  import opened Basics
  import opened CommandQueue

  // The entry at place i is the first of its unit for a command of the mid level.
  predicate FirstOf(l: seq<Entry>, command: nat, i: nat) {
    i < |l| && l[i].command == command && forall j :: 0 <= j < i ==> l[j].command != command
  }

  predicate FirstNumbered(l: seq<Entry>, serial: nat, i: nat) {
    i < |l| && l[i].serial == serial && forall j :: 0 <= j < i ==> l[j].serial != serial
  }

  // Unit u lost its i-th entry, and all that happened is the event.
  predicate Lost(s: State, t: State, u: nat, i: nat, e: Event)
    requires u < |s.lists| && i < |s.lists[u]|
  {
    t.lists == s.lists[u := s.lists[u][..i] + s.lists[u][i + 1..]] && t.next == s.next && t.log == s.log + [e]
  }

  // How often each callback was called is as before.
  ghost predicate NoCallback(s: State, t: State) {
    forall v, n :: Times(t, Done(v, n)) == Times(s, Done(v, n))
  }

  // ------------------------------------------------------- one step at a time

  // A submission puts one command with the next number at the tail, waiting;
  // without memory nothing happens.
  lemma SubmitAdds(s: State, u: nat, command: nat)
    requires u < |s.lists|
    ensures var t := Step(s, Submit(u, command, true));
      && t.lists == s.lists[u := s.lists[u] + [Entry(s.next, command, Queued)]]
      && t.log == s.log + [Submitted(u, s.next)]
    ensures Step(s, Submit(u, command, false)) == s
  {
  }

  // A poll hands out the first command that waits, which then does not; when
  // the copy fails nothing happens.
  lemma PollHands(s: State, u: nat, i: nat)
    requires u < |s.lists| && i < |s.lists[u]| && s.lists[u][i].phase.Queued?
    requires forall j :: 0 <= j < i ==> s.lists[u][j].phase.InUse?
    ensures var t := Step(s, Poll(u, true)); var e := s.lists[u][i];
      && t.lists == s.lists[u := s.lists[u][i := Entry(e.serial, e.command, InUse)]] && t.next == s.next
      && t.log == s.log + [Handed(u, e.serial)]
    ensures Step(s, Poll(u, false)) == s
  {
    FindIs(s.lists[u], Waiting, i);
  }

  lemma PollFindsNone(s: State, u: nat)
    requires u < |s.lists| && forall j :: 0 <= j < |s.lists[u]| ==> s.lists[u][j].phase.InUse?
    ensures Step(s, Poll(u, true)) == s
  {
    FindIs(s.lists[u], Waiting, |s.lists[u]|);
  }

  // A completion calls the callback of the first command with the number, and
  // that command leaves; when the copy fails nothing happens.
  lemma CompleteCallsBack(s: State, u: nat, n: nat, i: nat)
    requires u < |s.lists| && FirstNumbered(s.lists[u], n, i)
    ensures Lost(s, Step(s, Complete(u, n, true)), u, i, Done(u, n))
    ensures Step(s, Complete(u, n, false)) == s
  {
    FindIs(s.lists[u], BySerial(n), i);
  }

  // So does a timer, in the first unit that has the number.
  lemma TimeoutCallsBack(s: State, u: nat, n: nat, i: nat)
    requires u < |s.lists| && FirstNumbered(s.lists[u], n, i)
    requires forall v, j :: 0 <= v < u && 0 <= j < |s.lists[v]| ==> s.lists[v][j].serial != n
    ensures Lost(s, Step(s, Timeout(n)), u, i, Done(u, n))
  {
    FindIs(s.lists[u], BySerial(n), i);
  }

  // An abort takes back the first entry of the command, without its callback;
  // where there is none nothing happens.
  lemma AbortWithdraws(s: State, u: nat, command: nat)
    requires u < |s.lists|
    ensures var t := Step(s, Abort(u, command));
      && NoCallback(s, t)
      && (forall i :: 0 <= i < |s.lists[u]| && FirstOf(s.lists[u], command, i) ==>
          Lost(s, t, u, i, Withdrawn(u, s.lists[u][i].serial)))
      && ((forall j :: 0 <= j < |s.lists[u]| ==> s.lists[u][j].command != command) ==> t == s)
  {
    forall i | 0 <= i < |s.lists[u]| && FirstOf(s.lists[u], command, i)
      ensures Find(s.lists[u], ByCommand(command)) == i
    {
      FindIs(s.lists[u], ByCommand(command), i);
    }
    if forall j :: 0 <= j < |s.lists[u]| ==> s.lists[u][j].command != command {
      FindIs(s.lists[u], ByCommand(command), |s.lists[u]|);
    }
  }

  // One more of the event withdrawn, and of no other.
  lemma AbortCounts(s: State, u: nat, command: nat, i: nat)
    requires u < |s.lists| && FirstOf(s.lists[u], command, i)
    ensures var t := Step(s, Abort(u, command)); var n := s.lists[u][i].serial;
      forall v, m :: Times(t, Withdrawn(v, m)) == Times(s, Withdrawn(v, m)) + if v == u && m == n then 1 else 0
  {
    AbortWithdraws(s, u, command);
  }

  // ------------------------------------------------- and in the rest of the run

  lemma {:induction false} RunParts(s: State, before: seq<Action>, a: Action, after: seq<Action>)
    requires AllKnown(before + [a] + after, |s.lists|)
    ensures AllKnown(before, |s.lists|) && Known(a, |s.lists|)
    ensures Run(s, (before + [a] + after)[..|before| + 1]) == Step(Run(s, before), a)
  {
    var all := before + [a] + after;
    assert all[|before|] == a && forall i :: 0 <= i < |before| ==> all[i] == before[i];
    assert all[..|before| + 1] == before + [a];
    assert (before + [a])[..|before|] == before;
  }

  // Once a command that was still there is aborted, its callback is not called
  // in any run that goes on from there, and it was withdrawn once.
  lemma AbortedIsNeverCalled(units: nat, before: seq<Action>, u: nat, command: nat, i: nat, after: seq<Action>)
    requires u < units && AllKnown(before + [Abort(u, command)] + after, units)
    requires AllKnown(before, units) && FirstOf(Run(Start(units), before).lists[u], command, i)
    requires |AllSubmitted(Run(Start(units), before + [Abort(u, command)] + after).log)| < TWO_64
    ensures var n := Run(Start(units), before).lists[u][i].serial;
      var late := Run(Start(units), before + [Abort(u, command)] + after);
      Times(late, Done(u, n)) == 0 && Times(late, Withdrawn(u, n)) == 1 && Held(late.lists[u], n) == 0
  {
    var a, all := Abort(u, command), before + [Abort(u, command)] + after;
    var s := Run(Start(units), before);
    var n := s.lists[u][i].serial;
    RunParts(Start(units), before, a, after);
    AbortWithdraws(s, u, command);
    var t := Step(s, a);
    assert t.log[|s.log|] == Withdrawn(u, n);
    FateIsFinal(units, all, |before| + 1, u, n);
    Settled(units, all, |before| + 1, u, n);
  }

  // Once completed, it was called once and is not withdrawn.
  lemma CompletedIsNeverWithdrawn(units: nat, before: seq<Action>, u: nat, n: nat, i: nat, after: seq<Action>)
    requires u < units && AllKnown(before + [Complete(u, n, true)] + after, units)
    requires AllKnown(before, units) && FirstNumbered(Run(Start(units), before).lists[u], n, i)
    requires |AllSubmitted(Run(Start(units), before + [Complete(u, n, true)] + after).log)| < TWO_64
    ensures var late := Run(Start(units), before + [Complete(u, n, true)] + after);
      Times(late, Done(u, n)) == 1 && Times(late, Withdrawn(u, n)) == 0
  {
    var a, all := Complete(u, n, true), before + [Complete(u, n, true)] + after;
    var s := Run(Start(units), before);
    RunParts(Start(units), before, a, after);
    CompleteCallsBack(s, u, n, i);
    var t := Step(s, a);
    assert t.log[|s.log|] == Done(u, n);
    FateIsFinal(units, all, |before| + 1, u, n);
  }

  // What was withdrawn early in a run was withdrawn once in all of it.
  lemma Settled(units: nat, actions: seq<Action>, k: nat, u: nat, n: nat)
    requires AllKnown(actions, units) && k <= |actions| && u < units
    requires |AllSubmitted(Run(Start(units), actions).log)| < TWO_64
    requires Withdrawn(u, n) in Run(Start(units), actions[..k]).log
    ensures Times(Run(Start(units), actions), Withdrawn(u, n)) == 1
  {
    var late := Run(Start(units), actions);
    RunExtends(Start(units), actions, k);
    RunKeeps(units, actions);
    NumbersDiffer(late);
    SubmittedOnce(late.log, u, u, n);
    assert BalancedFor(late, u, n);
    assert Withdrawn(u, n) in late.log;
  }
}
