// The command queues of the kernel module (kernel/mhvtl.c): one list of
// commands for each unit, filled by the SCSI mid level, emptied by the user
// daemon, the timers, and the error handlers. Every handler is one atomic step.
module CommandQueue {
  import opened Basics

  const FIRST: nat := 2

  datatype Phase = Queued | InUse

  // command stands for the address of the mid level's command.
  datatype Entry = Entry(serial: nat, command: nat, phase: Phase)

  datatype Event =
    | Submitted(unit: nat, serial: nat)
    | Handed(unit: nat, serial: nat)
    | Done(unit: nat, serial: nat)
    | Withdrawn(unit: nat, serial: nat)

  // log is the history of the run: what was submitted, which header the daemon
  // was given, which done callback was called, which command was taken back.
  datatype State = State(lists: seq<seq<Entry>>, next: nat, log: seq<Event>)

  // ok is the result of the allocation or of the copy from or to user space.
  datatype Action =
    | Submit(unit: nat, command: nat, ok: bool)
    | Poll(unit: nat, ok: bool)
    | Complete(unit: nat, serial: nat, ok: bool)
    | Timeout(serial: nat)
    | Abort(unit: nat, command: nat)
    | StopAll

  predicate Known(a: Action, units: nat) {
    a.Timeout? || a.StopAll? || a.unit < units
  }

  // ------------------------------------------------------ looking for a command

  datatype Key = Waiting | BySerial(serial: nat) | ByCommand(command: nat)

  predicate Hit(e: Entry, k: Key) {
    match k
    case Waiting => e.phase.Queued?
    case BySerial(n) => e.serial == n
    case ByCommand(c) => e.command == c
  }

  // The first entry that has the key.
  function Find(l: seq<Entry>, k: Key): (i: nat)
    ensures i <= |l| && (forall j :: 0 <= j < i ==> !Hit(l[j], k)) && (i < |l| ==> Hit(l[i], k))
  {
    if l == [] then 0
    else if Hit(l[0], k) then 0
    else 1 + Find(l[1..], k)
  }

  lemma FindIs(l: seq<Entry>, k: Key, i: nat)
    requires i <= |l| && (forall j :: 0 <= j < i ==> !Hit(l[j], k)) && (i < |l| ==> Hit(l[i], k))
    ensures i == Find(l, k)
  {
  }

  // The first unit that holds a serial number.
  function FindUnit(lists: seq<seq<Entry>>, n: nat): (u: nat)
    ensures u <= |lists|
    ensures forall v :: 0 <= v < u ==> Find(lists[v], BySerial(n)) == |lists[v]|
    ensures u < |lists| ==> Find(lists[u], BySerial(n)) < |lists[u]|
  {
    if lists == [] then 0
    else if Find(lists[0], BySerial(n)) < |lists[0]| then 0
    else 1 + FindUnit(lists[1..], n)
  }

  // ------------------------------------------------------------- the steps

  function NextSerial(n: nat): nat {
    ((if n < FIRST then FIRST else n) + 1) % TWO_64
  }

  function Without(l: seq<Entry>, i: nat): seq<Entry>
    requires i < |l|
  {
    l[..i] + l[i + 1..]
  }

  function Add(s: State, u: nat, command: nat): State
    requires u < |s.lists|
  {
    State(s.lists[u := s.lists[u] + [Entry(s.next, command, Queued)]], NextSerial(s.next),
          s.log + [Submitted(u, s.next)])
  }

  function Hand(s: State, u: nat): State
    requires u < |s.lists|
  {
    var l := s.lists[u];
    var i := Find(l, Waiting);
    if i == |l| then s
    else s.(lists := s.lists[u := l[i := l[i].(phase := InUse)]], log := s.log + [Handed(u, l[i].serial)])
  }

  // The i-th command of a unit leaves it, with its callback called or not.
  function Drop(s: State, u: nat, i: nat, done: bool): State
    requires u < |s.lists| && i < |s.lists[u]|
  {
    var n := s.lists[u][i].serial;
    s.(lists := s.lists[u := Without(s.lists[u], i)], log := s.log + [if done then Done(u, n) else Withdrawn(u, n)])
  }

  function DropFound(s: State, u: nat, k: Key, done: bool): State
    requires u < |s.lists|
  {
    var i := Find(s.lists[u], k);
    if i < |s.lists[u]| then Drop(s, u, i, done) else s
  }

  function Drain(s: State, u: nat): (t: State)
    requires u < |s.lists|
    ensures |t.lists| == |s.lists|
    decreases |s.lists[u]|
  {
    if s.lists[u] == [] then s else Drain(Drop(s, u, 0, false), u)
  }

  function DrainFrom(s: State, u: nat): (t: State)
    requires u <= |s.lists|
    ensures |t.lists| == |s.lists|
    decreases |s.lists| - u
  {
    if u == |s.lists| then s else DrainFrom(Drain(s, u), u + 1)
  }

  function Step(s: State, a: Action): (t: State)
    requires Known(a, |s.lists|)
    ensures |t.lists| == |s.lists|
  {
    match a
    case Submit(u, c, ok) => if ok then Add(s, u, c) else s
    case Poll(u, ok) => if ok then Hand(s, u) else s
    case Complete(u, n, ok) => if ok then DropFound(s, u, BySerial(n), true) else s
    case Timeout(n) =>
      var u := FindUnit(s.lists, n);
      if u < |s.lists| then DropFound(s, u, BySerial(n), true) else s
    case Abort(u, c) => DropFound(s, u, ByCommand(c), false)
    case StopAll => DrainFrom(s, 0)
  }

  predicate AllKnown(actions: seq<Action>, units: nat) {
    forall i :: 0 <= i < |actions| ==> Known(actions[i], units)
  }

  function Run(s: State, actions: seq<Action>): (t: State)
    requires AllKnown(actions, |s.lists|)
    ensures |t.lists| == |s.lists|
  {
    if actions == [] then s else
      var n := |actions| - 1;
      Step(Run(s, actions[..n]), actions[n])
  }

  // No unit has any command when the module is loaded.
  function Start(units: nat): State {
    State(seq(units, _ => []), FIRST, [])
  }

  // A property that adding, handing out and dropping one command keep is kept
  // by every step; the lemmas below prove these three cases of each invariant.

  // -------------------------------------------- every command has one fate

  function Serials(l: seq<Entry>): seq<nat> {
    seq(|l|, i requires 0 <= i < |l| => l[i].serial)
  }

  function Held(l: seq<Entry>, n: nat): nat {
    multiset(Serials(l))[n]
  }

  function Times(s: State, e: Event): nat {
    multiset(s.log)[e]
  }

  ghost predicate BalancedFor(s: State, u: nat, n: nat)
    requires u < |s.lists|
  {
    Times(s, Submitted(u, n)) == Held(s.lists[u], n) + Times(s, Done(u, n)) + Times(s, Withdrawn(u, n))
  }

  // Whatever was submitted is still there, or was done, or was withdrawn.
  ghost predicate Balanced(s: State) {
    forall u, n :: 0 <= u < |s.lists| ==> BalancedFor(s, u, n)
  }

  lemma SerialsAppend(a: seq<Entry>, b: seq<Entry>)
    ensures Serials(a + b) == Serials(a) + Serials(b)
  {
  }

  lemma SerialsDrop(l: seq<Entry>, i: nat)
    requires i < |l|
    ensures multiset(Serials(l)) == multiset(Serials(Without(l, i))) + multiset{l[i].serial}
  {
    assert Serials(l) == Serials(l[..i]) + [l[i].serial] + Serials(l[i + 1..]);
    SerialsAppend(l[..i], l[i + 1..]);
  }

  lemma AddBalanced(s: State, u: nat, command: nat)
    requires u < |s.lists| && Balanced(s)
    ensures Balanced(Add(s, u, command))
  {
    var t := Add(s, u, command);
    SerialsAppend(s.lists[u], [Entry(s.next, command, Queued)]);
    assert Serials([Entry(s.next, command, Queued)]) == [s.next];
    forall v, n | 0 <= v < |t.lists|
      ensures BalancedFor(t, v, n)
    {
      assert BalancedFor(s, v, n);
    }
  }

  lemma HandBalanced(s: State, u: nat)
    requires u < |s.lists| && Balanced(s)
    ensures Balanced(Hand(s, u))
  {
    var t := Hand(s, u);
    assert Serials(t.lists[u]) == Serials(s.lists[u]);
    forall v, n | 0 <= v < |t.lists|
      ensures BalancedFor(t, v, n)
    {
      assert BalancedFor(s, v, n);
    }
  }

  lemma DropBalanced(s: State, u: nat, i: nat, done: bool)
    requires u < |s.lists| && i < |s.lists[u]| && Balanced(s)
    ensures Balanced(Drop(s, u, i, done))
  {
    var t := Drop(s, u, i, done);
    SerialsDrop(s.lists[u], i);
    forall v, n | 0 <= v < |t.lists|
      ensures BalancedFor(t, v, n)
    {
      assert BalancedFor(s, v, n);
    }
  }

  // ----------------------------------------- headers go out once and in order

  // The serials of a list that wait for the daemon, in order.
  function WaitingIn(l: seq<Entry>): seq<nat> {
    if l == [] then []
    else WaitingIn(l[..|l| - 1]) + (if l[|l| - 1].phase.Queued? then [l[|l| - 1].serial] else [])
  }

  // The serials of the events of one kind at one unit, in order.
  function SubmittedTo(log: seq<Event>, u: nat): seq<nat> {
    if log == [] then []
    else
      var e := log[|log| - 1];
      SubmittedTo(log[..|log| - 1], u) + (if e.Submitted? && e.unit == u then [e.serial] else [])
  }

  function HandedBy(log: seq<Event>, u: nat): seq<nat> {
    if log == [] then []
    else
      var e := log[|log| - 1];
      HandedBy(log[..|log| - 1], u) + (if e.Handed? && e.unit == u then [e.serial] else [])
  }

  // a can be had from b by leaving out some of its elements.
  predicate Subsequence(a: seq<nat>, b: seq<nat>) {
    if a == [] then true
    else if b == [] then false
    else
      var a', b' := a[..|a| - 1], b[..|b| - 1];
      (a[|a| - 1] == b[|b| - 1] && Subsequence(a', b')) || Subsequence(a, b')
  }

  // What the daemon was given, and will be given next.
  function OnTheWay(s: State, u: nat): seq<nat>
    requires u < |s.lists|
  {
    HandedBy(s.log, u) + WaitingIn(s.lists[u])
  }

  // It is what was submitted, in order, with some left out.
  ghost predicate Ordered(s: State) {
    forall u :: 0 <= u < |s.lists| ==> Subsequence(OnTheWay(s, u), SubmittedTo(s.log, u))
  }

  lemma SubsequenceAppend(a: seq<nat>, b: seq<nat>, x: nat)
    requires Subsequence(a, b)
    ensures Subsequence(a + [x], b + [x])
  {
    assert (a + [x])[..|a|] == a && (b + [x])[..|b|] == b;
  }

  lemma {:induction false} SubsequenceDrop(a: seq<nat>, b: seq<nat>, i: nat)
    requires Subsequence(a, b) && i < |a|
    ensures Subsequence(a[..i] + a[i + 1..], b)
    decreases |b|
  {
    var m := |a| - 1;
    var a', b' := a[..m], b[..|b| - 1];
    var c := a[..i] + a[i + 1..];
    if a[m] == b[|b| - 1] && Subsequence(a', b') {
      if i == m {
        assert c == a';
      } else {
        SubsequenceDrop(a', b', i);
        assert c[..m - 1] == a'[..i] + a'[i + 1..] && c[m - 1] == a[m];
      }
    } else {
      SubsequenceDrop(a, b', i);
    }
  }

  lemma {:induction false} WaitingAppend(a: seq<Entry>, b: seq<Entry>)
    ensures WaitingIn(a + b) == WaitingIn(a) + WaitingIn(b)
  {
    if b == [] {
      assert a + b == a;
    } else {
      var n := |b| - 1;
      assert (a + b)[..|a + b| - 1] == a + b[..n];
      WaitingAppend(a, b[..n]);
    }
  }

  lemma {:induction false} NoneWaiting(l: seq<Entry>)
    requires forall i :: 0 <= i < |l| ==> !l[i].phase.Queued?
    ensures WaitingIn(l) == []
  {
    if l != [] {
      NoneWaiting(l[..|l| - 1]);
    }
  }

  lemma WaitingMiddle(a: seq<Entry>, e: Entry, b: seq<Entry>)
    ensures WaitingIn(a + [e] + b) == WaitingIn(a) + (if e.phase.Queued? then [e.serial] else []) + WaitingIn(b)
  {
    WaitingAppend(a + [e], b);
    WaitingAppend(a, [e]);
    WaitingOne(e);
  }

  lemma WaitingSplit(l: seq<Entry>, i: nat)
    requires i < |l|
    ensures WaitingIn(l) ==
      WaitingIn(l[..i]) + (if l[i].phase.Queued? then [l[i].serial] else []) + WaitingIn(l[i + 1..])
  {
    TakenApart(l, i);
    WaitingMiddle(l[..i], l[i], l[i + 1..]);
  }

  lemma TakenApart<T>(l: seq<T>, i: nat)
    requires i < |l|
    ensures l == l[..i] + [l[i]] + l[i + 1..]
  {
  }

  lemma WaitingOne(e: Entry)
    ensures WaitingIn([e]) == if e.phase.Queued? then [e.serial] else []
  {
    assert [e][..0] == [];
  }

  lemma LogAppend(log: seq<Event>, e: Event, u: nat)
    ensures SubmittedTo(log + [e], u) ==
      if e.Submitted? && e.unit == u then SubmittedTo(log, u) + [e.serial] else SubmittedTo(log, u)
    ensures HandedBy(log + [e], u) ==
      if e.Handed? && e.unit == u then HandedBy(log, u) + [e.serial] else HandedBy(log, u)
  {
    assert (log + [e])[..|log|] == log;
  }

  // A step at one unit leaves the others as they are.
  lemma OrderedBut(s: State, t: State, u: nat, e: Event)
    requires u < |s.lists| && Ordered(s) && e.unit == u
    requires t.log == s.log + [e] && |t.lists| == |s.lists| && t.lists == s.lists[u := t.lists[u]]
    requires Subsequence(OnTheWay(t, u), SubmittedTo(t.log, u))
    ensures Ordered(t)
  {
    forall v | 0 <= v < |t.lists|
      ensures Subsequence(OnTheWay(t, v), SubmittedTo(t.log, v))
    {
      if v != u {
        LogAppend(s.log, e, v);
        assert t.lists[v] == s.lists[v];
      }
    }
  }

  lemma AddGoesLast(s: State, u: nat, command: nat)
    requires u < |s.lists|
    ensures OnTheWay(Add(s, u, command), u) == OnTheWay(s, u) + [s.next]
  {
    var e := Entry(s.next, command, Queued);
    LogAppend(s.log, Submitted(u, s.next), u);
    WaitingAppend(s.lists[u], [e]);
    assert [e][..0] == [];
  }

  lemma AddOrdered(s: State, u: nat, command: nat)
    requires u < |s.lists| && Ordered(s)
    ensures Ordered(Add(s, u, command))
  {
    var t := Add(s, u, command);
    AddGoesLast(s, u, command);
    SubsequenceAppend(OnTheWay(s, u), SubmittedTo(s.log, u), s.next);
    LogAppend(s.log, Submitted(u, s.next), u);
    OrderedBut(s, t, u, Submitted(u, s.next));
  }

  lemma WaitingHanded(l: seq<Entry>, i: nat)
    requires i < |l| && i == Find(l, Waiting)
    ensures WaitingIn(l) == [l[i].serial] + WaitingIn(l[i := l[i].(phase := InUse)])
  {
    var l' := l[i := l[i].(phase := InUse)];
    WaitingSplit(l, i);
    WaitingSplit(l', i);
    NoneWaiting(l[..i]);
    assert l'[..i] == l[..i] && l'[i + 1..] == l[i + 1..];
  }

  // The first command that waits moves from one side to the other.
  lemma HandMoves(s: State, u: nat)
    requires u < |s.lists|
    ensures OnTheWay(Hand(s, u), u) == OnTheWay(s, u)
  {
    var l := s.lists[u];
    var i := Find(l, Waiting);
    if i < |l| {
      WaitingHanded(l, i);
      LogAppend(s.log, Handed(u, l[i].serial), u);
    }
  }

  lemma HandOrdered(s: State, u: nat)
    requires u < |s.lists| && Ordered(s)
    ensures Ordered(Hand(s, u))
  {
    var t, l := Hand(s, u), s.lists[u];
    var i := Find(l, Waiting);
    if i < |l| {
      HandMoves(s, u);
      LogAppend(s.log, Handed(u, l[i].serial), u);
      OrderedBut(s, t, u, Handed(u, l[i].serial));
    }
  }

  lemma LeavesOut(h: seq<nat>, before: seq<nat>, x: nat, after: seq<nat>, all: seq<nat>)
    requires Subsequence(h + (before + [x] + after), all)
    ensures Subsequence(h + (before + after), all)
  {
    var a, k := h + (before + [x] + after), |h| + |before|;
    SubsequenceDrop(a, all, k);
    assert a[..k] + a[k + 1..] == h + (before + after);
  }

  lemma WaitingWithout(l: seq<Entry>, i: nat)
    requires i < |l|
    ensures WaitingIn(Without(l, i)) == WaitingIn(l[..i]) + WaitingIn(l[i + 1..])
    ensures !l[i].phase.Queued? ==> WaitingIn(Without(l, i)) == WaitingIn(l)
  {
    WaitingSplit(l, i);
    WaitingAppend(l[..i], l[i + 1..]);
    assert WaitingIn(l[..i]) + [] == WaitingIn(l[..i]);
  }

  lemma DropLeavesOut(s: State, u: nat, i: nat, done: bool)
    requires u < |s.lists| && i < |s.lists[u]| && Subsequence(OnTheWay(s, u), SubmittedTo(s.log, u))
    ensures Subsequence(OnTheWay(Drop(s, u, i, done), u), SubmittedTo(s.log, u))
  {
    var t, l := Drop(s, u, i, done), s.lists[u];
    LogAppend(s.log, t.log[|s.log|], u);
    WaitingWithout(l, i);
    if l[i].phase.Queued? {
      WaitingSplit(l, i);
      LeavesOut(HandedBy(s.log, u), WaitingIn(l[..i]), l[i].serial, WaitingIn(l[i + 1..]), SubmittedTo(s.log, u));
    }
  }

  lemma DropOrdered(s: State, u: nat, i: nat, done: bool)
    requires u < |s.lists| && i < |s.lists[u]| && Ordered(s)
    ensures Ordered(Drop(s, u, i, done))
  {
    var t := Drop(s, u, i, done);
    DropLeavesOut(s, u, i, done);
    LogAppend(s.log, t.log[|s.log|], u);
    OrderedBut(s, t, u, t.log[|s.log|]);
  }

  // ------------------------------------------------------------ serial numbers

  // The serial number of the k-th command submitted.
  function SerialAt(k: nat): nat {
    if k == 0 then FIRST else NextSerial(SerialAt(k - 1))
  }

  function AllSubmitted(log: seq<Event>): seq<nat> {
    if log == [] then []
    else
      var e := log[|log| - 1];
      AllSubmitted(log[..|log| - 1]) + (if e.Submitted? then [e.serial] else [])
  }

  ghost predicate Numbered(s: State) {
    && s.next == SerialAt(|AllSubmitted(s.log)|)
    && forall k :: 0 <= k < |AllSubmitted(s.log)| ==> AllSubmitted(s.log)[k] == SerialAt(k)
  }

  lemma AllAppend(log: seq<Event>, e: Event)
    ensures AllSubmitted(log + [e]) == AllSubmitted(log) + (if e.Submitted? then [e.serial] else [])
  {
    assert (log + [e])[..|log|] == log;
  }

  lemma AddNumbered(s: State, u: nat, command: nat)
    requires u < |s.lists| && Numbered(s)
    ensures Numbered(Add(s, u, command))
  {
    AllAppend(s.log, Submitted(u, s.next));
  }

  lemma HandNumbered(s: State, u: nat)
    requires u < |s.lists| && Numbered(s)
    ensures Numbered(Hand(s, u))
  {
    var l := s.lists[u];
    var i := Find(l, Waiting);
    if i < |l| {
      AllAppend(s.log, Handed(u, l[i].serial));
    }
  }

  lemma DropNumbered(s: State, u: nat, i: nat, done: bool)
    requires u < |s.lists| && i < |s.lists[u]| && Numbered(s)
    ensures Numbered(Drop(s, u, i, done))
  {
    AllAppend(s.log, Drop(s, u, i, done).log[|s.log|]);
  }

  // The numbers start at 2 and come round after TWO_64 - 2 commands, through 0.
  lemma {:induction false} SerialIs(k: nat)
    ensures SerialAt(k) == if k > 0 && k % (TWO_64 - 2) == 0 then 0 else FIRST + k % (TWO_64 - 2)
  {
    if k > 0 {
      SerialIs(k - 1);
      Modulo(k - 1, TWO_64 - 2);
    }
  }

  lemma Modulo(k: nat, d: nat)
    requires d > 1
    ensures (k + 1) % d == if k % d == d - 1 then 0 else k % d + 1
  {
    var q, r := k / d, k % d;
    assert k == d * q + r;
    if r == d - 1 {
      assert k + 1 == d * (q + 1);
      ModuloIs(q + 1, 0, d);
    } else {
      ModuloIs(q, r + 1, d);
    }
  }

  lemma ModuloIs(q: nat, r: nat, d: nat)
    requires r < d
    ensures (d * q + r) % d == r
  {
    var x := d * q + r;
    assert x == d * (x / d) + x % d;
    Multiples(d, q, x / d);
    Multiples(d, x / d, q);
  }

  lemma Multiples(d: nat, a: nat, b: nat)
    ensures a < b ==> d * a + d <= d * b
  {
    if a < b {
      assert d * b == d * a + d * (b - a);
      AtLeast(d, b - a);
    }
  }

  lemma AtLeast(d: nat, m: nat)
    requires m > 0
    ensures d * m >= d
  {
  }

  // The first TWO_64 - 1 numbers.
  lemma EarlySerial(k: nat)
    requires k < TWO_64 - 1
    ensures SerialAt(k) == if k == TWO_64 - 2 then 0 else FIRST + k
  {
    SerialIs(k);
    if k < TWO_64 - 2 {
      ModuloIs(0, k, TWO_64 - 2);
    }
  }

  lemma TwoDiffer(i: nat, j: nat)
    requires i < j < TWO_64 - 1
    ensures SerialAt(i) != SerialAt(j)
  {
    EarlySerial(i);
    EarlySerial(j);
  }

  // No two of the first n commands share a number exactly when n < TWO_64.
  lemma SerialsDistinct(n: nat)
    ensures (forall i, j :: 0 <= i < j < n ==> SerialAt(i) != SerialAt(j)) <==> n < TWO_64
  {
    if n < TWO_64 {
      forall i, j | 0 <= i < j < n
        ensures SerialAt(i) != SerialAt(j)
      {
        TwoDiffer(i, j);
      }
    } else {
      SerialIs(1);
      SerialIs(TWO_64 - 1);
    }
  }

  // --------------------------------------------------------- over whole runs

  ghost predicate Kept(s: State) {
    Balanced(s) && Ordered(s) && Numbered(s)
  }

  lemma AddKeeps(s: State, u: nat, command: nat)
    requires u < |s.lists| && Kept(s)
    ensures Kept(Add(s, u, command))
  {
    AddBalanced(s, u, command);
    AddOrdered(s, u, command);
    AddNumbered(s, u, command);
  }

  lemma HandKeeps(s: State, u: nat)
    requires u < |s.lists| && Kept(s)
    ensures Kept(Hand(s, u))
  {
    HandBalanced(s, u);
    HandOrdered(s, u);
    HandNumbered(s, u);
  }

  lemma DropKeeps(s: State, u: nat, i: nat, done: bool)
    requires u < |s.lists| && i < |s.lists[u]| && Kept(s)
    ensures Kept(Drop(s, u, i, done))
  {
    DropBalanced(s, u, i, done);
    DropOrdered(s, u, i, done);
    DropNumbered(s, u, i, done);
  }

  lemma DropFoundKeeps(s: State, u: nat, k: Key, done: bool)
    requires u < |s.lists| && Kept(s)
    ensures Kept(DropFound(s, u, k, done))
  {
    var i := Find(s.lists[u], k);
    if i < |s.lists[u]| {
      DropKeeps(s, u, i, done);
    }
  }

  lemma {:induction false} DrainKeeps(s: State, u: nat)
    requires u < |s.lists| && Kept(s)
    ensures Kept(Drain(s, u))
    decreases |s.lists[u]|
  {
    if s.lists[u] != [] {
      DropKeeps(s, u, 0, false);
      DrainKeeps(Drop(s, u, 0, false), u);
    }
  }

  lemma {:induction false} DrainFromKeeps(s: State, u: nat)
    requires u <= |s.lists| && Kept(s)
    ensures Kept(DrainFrom(s, u))
    decreases |s.lists| - u
  {
    if u < |s.lists| {
      DrainKeeps(s, u);
      DrainFromKeeps(Drain(s, u), u + 1);
    }
  }

  lemma StepKeeps(s: State, a: Action)
    requires Known(a, |s.lists|) && Kept(s)
    ensures Kept(Step(s, a))
  {
    var t := Step(s, a);
    match a
    case Submit(u, c, ok) =>
      AddKeeps(s, u, c);
      assert t == if ok then Add(s, u, c) else s;
    case Poll(u, ok) =>
      HandKeeps(s, u);
      assert t == if ok then Hand(s, u) else s;
    case Complete(u, n, ok) =>
      DropFoundKeeps(s, u, BySerial(n), true);
      assert t == if ok then DropFound(s, u, BySerial(n), true) else s;
    case Timeout(n) =>
      var u := FindUnit(s.lists, n);
      if u < |s.lists| {
        DropFoundKeeps(s, u, BySerial(n), true);
      }
    case Abort(u, c) =>
      DropFoundKeeps(s, u, ByCommand(c), false);
    case StopAll =>
      DrainFromKeeps(s, 0);
  }

  lemma {:induction false} RunKeeps(units: nat, actions: seq<Action>)
    requires AllKnown(actions, units)
    ensures Kept(Run(Start(units), actions))
  {
    if actions == [] {
      var s := Start(units);
      forall u, n | 0 <= u < |s.lists|
        ensures BalancedFor(s, u, n)
      {
        assert Serials(s.lists[u]) == [];
      }
    } else {
      var n := |actions| - 1;
      RunKeeps(units, actions[..n]);
      StepKeeps(Run(Start(units), actions[..n]), actions[n]);
    }
  }

  lemma {:induction false} SubmittedIsListed(log: seq<Event>, u: nat, n: nat)
    ensures Submitted(u, n) in log ==> n in AllSubmitted(log)
  {
    if log != [] {
      SubmittedIsListed(log[..|log| - 1], u, n);
    }
  }

  predicate Different(a: seq<nat>) {
    forall i, j :: 0 <= i < j < |a| ==> a[i] != a[j]
  }

  lemma {:induction false} SubmittedOnce(log: seq<Event>, u: nat, v: nat, n: nat)
    requires Different(AllSubmitted(log))
    ensures multiset(log)[Submitted(u, n)] + (if u == v then 0 else multiset(log)[Submitted(v, n)]) <= 1
  {
    if log != [] {
      var k := |log| - 1;
      var e := log[k];
      assert log == log[..k] + [e];
      var before, all := AllSubmitted(log[..k]), AllSubmitted(log);
      assert forall i :: 0 <= i < |before| ==> all[i] == before[i];
      SubmittedOnce(log[..k], u, v, n);
      if e == Submitted(u, n) || e == Submitted(v, n) {
        assert all == before + [n];
        forall i | 0 <= i < |before|
          ensures before[i] != n
        {
          assert all[i] != all[|before|];
        }
        SubmittedIsListed(log[..k], u, n);
        SubmittedIsListed(log[..k], v, n);
      }
    }
  }

  lemma NumbersDiffer(s: State)
    requires Numbered(s) && |AllSubmitted(s.log)| < TWO_64
    ensures Different(AllSubmitted(s.log))
  {
    var all := AllSubmitted(s.log);
    forall i, j | 0 <= i < j < |all|
      ensures all[i] != all[j]
    {
      TwoDiffer(i, j);
    }
  }

  lemma {:induction false} SubsequenceHasLess(a: seq<nat>, b: seq<nat>)
    requires Subsequence(a, b)
    ensures multiset(a) <= multiset(b)
    decreases |b|
  {
    if a != [] {
      var a', b' := a[..|a| - 1], b[..|b| - 1];
      assert a == a' + [a[|a| - 1]] && b == b' + [b[|b| - 1]];
      if a[|a| - 1] == b[|b| - 1] && Subsequence(a', b') {
        SubsequenceHasLess(a', b');
      } else {
        SubsequenceHasLess(a, b');
      }
    }
  }

  lemma {:induction false} SubsequencePrefix(a: seq<nat>, c: seq<nat>, b: seq<nat>)
    requires Subsequence(a + c, b)
    ensures Subsequence(a, b)
    decreases |c|
  {
    if c == [] {
      assert a + c == a;
    } else {
      var k := |a + c| - 1;
      SubsequenceDrop(a + c, b, k);
      assert (a + c)[..k] + (a + c)[k + 1..] == a + c[..|c| - 1];
      SubsequencePrefix(a, c[..|c| - 1], b);
    }
  }

  lemma CountAppend<T>(a: seq<T>, x: T, y: T)
    ensures multiset(a + [x])[y] == multiset(a)[y] + (if x == y then 1 else 0)
  {
  }

  lemma {:induction false} SubmittedCounts(log: seq<Event>, u: nat, n: nat)
    ensures multiset(SubmittedTo(log, u))[n] == multiset(log)[Submitted(u, n)]
  {
    if log != [] {
      var before, e := log[..|log| - 1], log[|log| - 1];
      SubmittedCounts(before, u, n);
      assert log == before + [e];
      CountAppend(before, e, Submitted(u, n));
      if e.Submitted? && e.unit == u {
        CountAppend(SubmittedTo(before, u), e.serial, n);
      }
    }
  }

  lemma {:induction false} HandedCounts(log: seq<Event>, u: nat, n: nat)
    ensures multiset(HandedBy(log, u))[n] == multiset(log)[Handed(u, n)]
  {
    if log != [] {
      var before, e := log[..|log| - 1], log[|log| - 1];
      HandedCounts(before, u, n);
      assert log == before + [e];
      CountAppend(before, e, Handed(u, n));
      if e.Handed? && e.unit == u {
        CountAppend(HandedBy(before, u), e.serial, n);
      }
    }
  }

  // The daemon is given the headers of a unit in the order of submission, each
  // at most as often as it was submitted.
  lemma HeadersInOrder(units: nat, actions: seq<Action>, u: nat, n: nat)
    requires AllKnown(actions, units) && u < units
    ensures var s := Run(Start(units), actions);
      && Subsequence(HandedBy(s.log, u), SubmittedTo(s.log, u))
      && Times(s, Handed(u, n)) <= Times(s, Submitted(u, n))
  {
    var s := Run(Start(units), actions);
    RunKeeps(units, actions);
    SubsequencePrefix(HandedBy(s.log, u), WaitingIn(s.lists[u]), SubmittedTo(s.log, u));
    SubsequenceHasLess(HandedBy(s.log, u), SubmittedTo(s.log, u));
    SubmittedCounts(s.log, u, n);
    HandedCounts(s.log, u, n);
  }

  // In every run of less than TWO_64 submissions, a command that was submitted
  // has one fate: it is in the list of its unit, or its callback was called,
  // or it was withdrawn; its header went out at most once; and no other unit
  // ever had anything to do with its number.
  lemma OneFate(units: nat, actions: seq<Action>, u: nat, n: nat)
    requires AllKnown(actions, units) && u < units
    requires Submitted(u, n) in Run(Start(units), actions).log
    requires |AllSubmitted(Run(Start(units), actions).log)| < TWO_64
    ensures var s := Run(Start(units), actions);
      && Held(s.lists[u], n) + Times(s, Done(u, n)) + Times(s, Withdrawn(u, n)) == 1
      && Times(s, Handed(u, n)) <= 1
      && forall v :: 0 <= v < units && v != u ==> NeverThere(s, v, n)
  {
    var s := Run(Start(units), actions);
    RunKeeps(units, actions);
    NumbersDiffer(s);
    SubmittedOnce(s.log, u, u, n);
    assert BalancedFor(s, u, n);
    HeadersInOrder(units, actions, u, n);
    forall v | 0 <= v < units && v != u
      ensures NeverThere(s, v, n)
    {
      SubmittedOnce(s.log, u, v, n);
      assert BalancedFor(s, v, n);
      HeadersInOrder(units, actions, v, n);
    }
  }

  // The unit neither has nor had anything to do with a number.
  ghost predicate NeverThere(s: State, v: nat, n: nat)
    requires v < |s.lists|
  {
    Held(s.lists[v], n) == Times(s, Submitted(v, n)) == Times(s, Handed(v, n)) ==
    Times(s, Done(v, n)) == Times(s, Withdrawn(v, n)) == 0
  }

  lemma {:induction false} DrainExtends(s: State, u: nat)
    requires u < |s.lists|
    ensures s.log <= Drain(s, u).log
    decreases |s.lists[u]|
  {
    if s.lists[u] != [] {
      DrainExtends(Drop(s, u, 0, false), u);
    }
  }

  lemma {:induction false} DrainFromExtends(s: State, u: nat)
    requires u <= |s.lists|
    ensures s.log <= DrainFrom(s, u).log
    decreases |s.lists| - u
  {
    if u < |s.lists| {
      DrainExtends(s, u);
      DrainFromExtends(Drain(s, u), u + 1);
    }
  }

  lemma {:induction false} RunExtends(s: State, actions: seq<Action>, k: nat)
    requires AllKnown(actions, |s.lists|) && k <= |actions|
    ensures Run(s, actions[..k]).log <= Run(s, actions).log
  {
    if k == |actions| {
      assert actions[..k] == actions;
    } else {
      var n := |actions| - 1;
      assert actions[..n][..k] == actions[..k];
      RunExtends(s, actions[..n], k);
      StepExtends(Run(s, actions[..n]), actions[n]);
    }
  }

  lemma StepExtends(s: State, a: Action)
    requires Known(a, |s.lists|)
    ensures s.log <= Step(s, a).log
  {
    DrainFromExtends(s, 0);
  }

  // Once a command is withdrawn, its callback is never called; once it is
  // called, it is never called again and the command never withdrawn.
  lemma FateIsFinal(units: nat, actions: seq<Action>, k: nat, u: nat, n: nat)
    requires AllKnown(actions, units) && k <= |actions| && u < units
    requires |AllSubmitted(Run(Start(units), actions).log)| < TWO_64
    ensures var early, late := Run(Start(units), actions[..k]), Run(Start(units), actions);
      && (Withdrawn(u, n) in early.log ==> Times(late, Done(u, n)) == 0 && Held(late.lists[u], n) == 0)
      && (Done(u, n) in early.log ==> Times(late, Done(u, n)) == 1 && Times(late, Withdrawn(u, n)) == 0)
  {
    var early, late := Run(Start(units), actions[..k]), Run(Start(units), actions);
    RunExtends(Start(units), actions, k);
    RunKeeps(units, actions);
    NumbersDiffer(late);
    SubmittedOnce(late.log, u, u, n);
    assert BalancedFor(late, u, n);
    if Withdrawn(u, n) in early.log {
      assert Withdrawn(u, n) in late.log;
    }
    if Done(u, n) in early.log {
      assert Done(u, n) in late.log;
    }
  }

  lemma {:induction false} DrainEmpties(s: State, u: nat)
    requires u < |s.lists|
    ensures var t := Drain(s, u);
      t.lists == s.lists[u := []] && forall v, n :: Times(t, Done(v, n)) == Times(s, Done(v, n))
    decreases |s.lists[u]|
  {
    if s.lists[u] != [] {
      DrainEmpties(Drop(s, u, 0, false), u);
    }
  }

  lemma {:induction false} DrainFromEmpties(s: State, u: nat)
    requires u <= |s.lists|
    ensures var t := DrainFrom(s, u);
      && (forall v :: 0 <= v < |s.lists| ==> t.lists[v] == if v < u then s.lists[v] else [])
      && (forall v, n :: Times(t, Done(v, n)) == Times(s, Done(v, n)))
    decreases |s.lists| - u
  {
    if u < |s.lists| {
      DrainEmpties(s, u);
      DrainFromEmpties(Drain(s, u), u + 1);
    }
  }

  // A reset leaves nothing behind: what was not done by then is withdrawn, and
  // no callback is called.
  lemma StopSettles(units: nat, actions: seq<Action>, u: nat, n: nat)
    requires AllKnown(actions, units) && u < units
    ensures var s := Run(Start(units), actions); var t := Step(s, StopAll);
      && t.lists[u] == []
      && Times(t, Done(u, n)) == Times(s, Done(u, n))
      && Times(t, Submitted(u, n)) == Times(t, Done(u, n)) + Times(t, Withdrawn(u, n))
  {
    var s := Run(Start(units), actions);
    RunKeeps(units, actions);
    StepKeeps(s, StopAll);
    DrainFromEmpties(s, 0);
    assert BalancedFor(Step(s, StopAll), u, n);
    assert Serials([]) == [];
  }

  // Completing a number changes something exactly when the unit holds it; a
  // timer that runs out, exactly when some unit does.
  lemma UnknownSerial(s: State, u: nat, n: nat)
    requires u < |s.lists|
    ensures Step(s, Complete(u, n, true)) == s <==> Held(s.lists[u], n) == 0
    ensures Step(s, Timeout(n)) == s <==> forall v :: 0 <= v < |s.lists| ==> Held(s.lists[v], n) == 0
  {
    HeldIsFound(s.lists[u], n);
    forall v | 0 <= v < |s.lists|
      ensures Held(s.lists[v], n) == 0 <==> Find(s.lists[v], BySerial(n)) == |s.lists[v]|
    {
      HeldIsFound(s.lists[v], n);
    }
  }

  lemma HeldIsFound(l: seq<Entry>, n: nat)
    ensures Held(l, n) == 0 <==> Find(l, BySerial(n)) == |l|
  {
    if Find(l, BySerial(n)) == |l| {
      assert n !in Serials(l);
    } else {
      assert Serials(l)[Find(l, BySerial(n))] == n;
    }
  }

  // A timer does to a command that is still there what the daemon would have done.
  lemma TimeoutCompletes(units: nat, actions: seq<Action>, u: nat, n: nat)
    requires AllKnown(actions, units) && u < units
    requires |AllSubmitted(Run(Start(units), actions).log)| < TWO_64
    ensures var s := Run(Start(units), actions);
      Held(s.lists[u], n) > 0 ==> Step(s, Timeout(n)) == Step(s, Complete(u, n, true))
  {
    var s := Run(Start(units), actions);
    var v := FindUnit(s.lists, n);
    HeldIsFound(s.lists[u], n);
    if Held(s.lists[u], n) > 0 && v != u {
      HeldIsFound(s.lists[v], n);
      RunKeeps(units, actions);
      assert BalancedFor(s, u, n);
      assert !NeverThere(s, v, n);
      OneFate(units, actions, u, n);
      assert false;
    }
  }

  // ------------------------------------------------- polling hands out all

  function Polled(s: State, u: nat, k: nat): (t: State)
    requires u < |s.lists|
    ensures |t.lists| == |s.lists|
  {
    if k == 0 then s else Step(Polled(s, u, k - 1), Poll(u, true))
  }

  lemma HandsOne(s: State, u: nat)
    requires u < |s.lists|
    ensures |HandedBy(Hand(s, u).log, u)| == |HandedBy(s.log, u)| + (if WaitingIn(s.lists[u]) == [] then 0 else 1)
  {
    var l := s.lists[u];
    var i := Find(l, Waiting);
    if i < |l| {
      LogAppend(s.log, Handed(u, l[i].serial), u);
      WaitingSplit(l, i);
    } else {
      NoneWaiting(l);
    }
  }

  lemma PrefixGrows(way: seq<nat>, h: seq<nat>, w: seq<nat>, h': seq<nat>, w': seq<nat>)
    requires way == h + w == h' + w' && |h| <= |h'|
    ensures h' == h + w[..|h'| - |h|]
  {
    assert h' == way[..|h'|];
  }

  // k polls in a row hand out the first k commands that wait, or all of them.
  lemma PollsHandOut(s: State, u: nat, k: nat)
    requires u < |s.lists|
    ensures var waiting, t := WaitingIn(s.lists[u]), Polled(s, u, k);
      HandedBy(t.log, u) == HandedBy(s.log, u) + waiting[..if k < |waiting| then k else |waiting|]
  {
    var t := Polled(s, u, k);
    PollsCount(s, u, k);
    PrefixGrows(OnTheWay(s, u), HandedBy(s.log, u), WaitingIn(s.lists[u]), HandedBy(t.log, u), WaitingIn(t.lists[u]));
  }

  lemma PollMoves(s: State, u: nat)
    requires u < |s.lists|
    ensures var t := Step(s, Poll(u, true));
      && |HandedBy(t.log, u)| == |HandedBy(s.log, u)| + (if WaitingIn(s.lists[u]) == [] then 0 else 1)
      && OnTheWay(t, u) == OnTheWay(s, u)
  {
    HandMoves(s, u);
    HandsOne(s, u);
  }

  lemma {:induction false} PollsCount(s: State, u: nat, k: nat)
    requires u < |s.lists|
    ensures var waiting, t := |WaitingIn(s.lists[u])|, Polled(s, u, k);
      && |HandedBy(t.log, u)| == |HandedBy(s.log, u)| + (if k < waiting then k else waiting)
      && OnTheWay(t, u) == OnTheWay(s, u)
  {
    if k > 0 {
      var before := Polled(s, u, k - 1);
      PollsCount(s, u, k - 1);
      PollMoves(before, u);
    }
  }

  // -------------------------------------------------------- the module itself

  const BUSY: int := 1
  const EFAULT: int := 14
  const QUEUE_CMD: int := 0xfe

  class Adapter {
    var lists: seq<seq<Entry>>
    var serialNumber: nat
    ghost var log: seq<Event>

    ghost predicate Valid()
      reads this
    {
      serialNumber < TWO_64
    }

    ghost function Abs(): State
      reads this
    {
      State(lists, serialNumber, log)
    }

    // mhvtl_init and the registration of the units
    constructor (units: nat)
      ensures Valid() && Abs() == Start(units)
    {
      lists, serialNumber, log := seq(units, _ => []), FIRST, [];
    }

    // mhvtl_q_cmd
    method QueueCommand(u: nat, command: nat, memory: bool) returns (r: int)
      requires Valid() && u < |lists|
      modifies this
      ensures Valid() && Abs() == Step(old(Abs()), Submit(u, command, memory))
      ensures r == if memory then 0 else 1
    {
      r := 1;
      if memory {
        var sqcp := Entry(serialNumber, command, Queued);
        log := log + [Submitted(u, serialNumber)];
        if serialNumber < FIRST {
          serialNumber := FIRST;
        }
        serialNumber := (serialNumber + 1) % TWO_64;
        lists := lists[u := lists[u] + [sqcp]];
        r := 0;
      }
    }

    // lookup_sqcp: no entry of a list is free. The index of the entry, or the
    // length of the list.
    method Lookup(u: nat, n: nat) returns (i: nat)
      requires u < |lists|
      ensures i == Find(lists[u], BySerial(n))
    {
      i := 0;
      while i < |lists[u]| && lists[u][i].serial != n
        invariant i <= |lists[u]| && forall j :: 0 <= j < i ==> lists[u][j].serial != n
      {
        i := i + 1;
      }
      FindIs(lists[u], BySerial(n), i);
    }

    // mhvtl_remove_sqcp, with or without the callback before it
    method Remove(u: nat, i: nat, done: bool)
      requires u < |lists| && i < |lists[u]|
      modifies this`lists, this`log
      ensures Abs() == Drop(old(Abs()), u, i, done)
    {
      var n := lists[u][i].serial;
      if done {
        log := log + [Done(u, n)];
      } else {
        log := log + [Withdrawn(u, n)];
      }
      lists := lists[u := lists[u][..i] + lists[u][i + 1..]];
    }

    // send_mhvtl_header
    method SendHeader(u: nat, copied: bool) returns (r: int, header: nat)
      requires u < |lists|
      modifies this`lists, this`log
      ensures Abs() == Step(old(Abs()), Poll(u, copied))
      ensures var l := old(lists[u]); var i := Find(l, Waiting);
        r == (if i == |l| then 0 else if copied then 0xfe else -14) &&
        (r == 0xfe ==> header == l[i].serial)
    {
      r, header := 0, 0;
      var i := 0;
      while i < |lists[u]| && !lists[u][i].phase.Queued?
        invariant i <= |lists[u]| && forall j :: 0 <= j < i ==> !lists[u][j].phase.Queued?
      {
        i := i + 1;
      }
      FindIs(lists[u], Waiting, i);
      if i < |lists[u]| {
        if copied {
          header := lists[u][i].serial;
          log := log + [Handed(u, header)];
          lists := lists[u := lists[u][i := lists[u][i].(phase := InUse)]];
          r := QUEUE_CMD;
        } else {
          r := -EFAULT;
        }
      }
    }

    // mhvtl_put_user_data
    method PutUserData(u: nat, n: nat, copied: bool) returns (r: int)
      requires u < |lists|
      modifies this`lists, this`log
      ensures Abs() == Step(old(Abs()), Complete(u, n, copied))
      ensures r == if !copied then -14 else if Held(old(lists[u]), n) == 0 then 1 else 0
    {
      HeldIsFound(lists[u], n);
      r := -EFAULT;
      if copied {
        var i := Lookup(u, n);
        if i < |lists[u]| {
          Remove(u, i, true);
          r := 0;
        } else {
          r := BUSY;
        }
      }
    }

    // mhvtl_timer_intr_handler: the timer knows the number, not the unit.
    method TimerExpired(n: nat)
      modifies this`lists, this`log
      ensures Abs() == Step(old(Abs()), Timeout(n))
    {
      var u, i, found := 0, 0, false;
      while u < |lists| && !found
        invariant u <= |lists|
        invariant forall v :: 0 <= v < u ==> Find(lists[v], BySerial(n)) == |lists[v]|
        invariant found ==> u < |lists| && i == Find(lists[u], BySerial(n)) < |lists[u]|
        invariant unchanged(this)
        decreases |lists| - u, !found
      {
        i := Lookup(u, n);
        if i < |lists[u]| {
          found := true;
        } else {
          u := u + 1;
        }
      }
      FindUnitIs(lists, n, u);
      if found {
        Remove(u, i, true);
      }
    }

    // mhvtl_stop_queued_cmnd
    method StopQueued(u: nat, command: nat) returns (found: bool)
      requires u < |lists|
      modifies this`lists, this`log
      ensures Abs() == Step(old(Abs()), Abort(u, command))
      ensures found <==> exists i :: 0 <= i < |old(lists[u])| && old(lists[u])[i].command == command
    {
      var i := 0;
      while i < |lists[u]| && lists[u][i].command != command
        invariant i <= |lists[u]| && forall j :: 0 <= j < i ==> lists[u][j].command != command
      {
        i := i + 1;
      }
      FindIs(lists[u], ByCommand(command), i);
      found := i < |lists[u]|;
      if found {
        Remove(u, i, false);
      }
    }

    // mhvtl_stop_all_queued
    method StopAllQueued()
      modifies this`lists, this`log
      ensures Abs() == Step(old(Abs()), StopAll)
    {
      var u := 0;
      while u < |lists|
        invariant u <= |lists| == |old(lists)|
        invariant serialNumber == old(serialNumber)
        invariant DrainFrom(Abs(), u) == DrainFrom(old(Abs()), 0)
      {
        while lists[u] != []
          invariant u < |lists| == |old(lists)|
          invariant serialNumber == old(serialNumber)
          invariant DrainFrom(Drain(Abs(), u), u + 1) == DrainFrom(old(Abs()), 0)
          decreases |lists[u]|
        {
          Remove(u, 0, false);
        }
        u := u + 1;
      }
    }
  }

  method Handle(m: Adapter, a: Action)
    requires m.Valid() && Known(a, |m.lists|)
    modifies m
    ensures m.Valid() && m.Abs() == Step(old(m.Abs()), a)
  {
    match a {
      case Submit(u, c, ok) => var _ := m.QueueCommand(u, c, ok);
      case Poll(u, ok) => var _, _ := m.SendHeader(u, ok);
      case Complete(u, n, ok) => var _ := m.PutUserData(u, n, ok);
      case Timeout(n) => m.TimerExpired(n);
      case Abort(u, c) => var _ := m.StopQueued(u, c);
      case StopAll => m.StopAllQueued();
    }
  }

  // Any sequence of handlers is a run of the protocol.
  method HandleAll(m: Adapter, actions: seq<Action>)
    requires m.Valid() && AllKnown(actions, |m.lists|)
    modifies m
    ensures m.Valid() && m.Abs() == Run(old(m.Abs()), actions)
  {
    ghost var start := m.Abs();
    for k := 0 to |actions|
      invariant m.Valid() && |m.lists| == |start.lists|
      invariant m.Abs() == Run(start, actions[..k])
    {
      assert actions[..k + 1][..k] == actions[..k];
      Handle(m, actions[k]);
    }
    assert actions[..|actions|] == actions;
  }

  lemma FindUnitIs(lists: seq<seq<Entry>>, n: nat, u: nat)
    requires u <= |lists| && forall v :: 0 <= v < u ==> Find(lists[v], BySerial(n)) == |lists[v]|
    requires u < |lists| ==> Find(lists[u], BySerial(n)) < |lists[u]|
    ensures u == FindUnit(lists, n)
  {
  }
}
