/** The thread-safe queue: as an object used by one thread at a time, and as threads that interleave. */
module TsQueues {

  /** Every public member takes `m_oMuxQueue` for its whole body; this is what each does under that lock. `front`,
      `back` and the pops are undefined on the empty queue: their callers must not. */
  class TsQueue<T> {
    var items: seq<T>

    constructor ()
      ensures items == []
    {
      items := [];
    }

    method Front() returns (x: T)
      requires items != []
      ensures x == items[0]
    {
      x := items[0];
    }

    method PushBack(x: T)
      modifies this`items
      ensures items == old(items) + [x]
    {
      items := items + [x];
    }

    method Empty() returns (b: bool)
      ensures b <==> items == []
    {
      b := |items| == 0;
    }

    method PopFront() returns (x: T)
      requires items != []
      modifies this`items
      ensures [x] + items == old(items)
    {
      x := items[0];
      items := items[1..];
    }
  }
}

/** Any number of threads inside the queue, one lock operation, queue access or notification at a time. */
module QueueThreads {

  type Tid = nat

  datatype Op<T> = PushBack(x: T) | PushFront(x: T) | PopFront | PopBack | Clear | Observe | Wait

  /** Where a thread is. `Q` is `m_oMuxQueue`, `B` is `m_oMuxBlocking`. */
  datatype Pc<T> =
    | Idle
    | Calling(op: Op<T>)       // wants Q
    | InBody(op: Op<T>)        // holds Q
    | Pushed(id: nat)          // holds Q, wants B
    | Notifying(id: nat)       // holds Q and B
    | Notified                 // holds Q and B
    | Leaving                  // holds Q
    | Checking                 // in wait: wants Q, for empty()
    | InCheck                  // holds Q
    | Checked(wasEmpty: bool)  // holds Q
    | Blocking                 // empty() returned true; wants B
    | Blocked                  // holds B
    | Parked                   // asleep in the condition variable
    | Waking                   // woken; wants B
    | Woken                    // holds B

  datatype Holder = Free | HeldBy(tid: Tid)

  datatype Time = NotYet | Then(at: nat)

  /** A queued element, with the push that put it there and when that push called `notify_one`. */
  datatype Entry<T> = Entry(value: T, id: nat, notified: Time)

  /** `clock` counts steps, `checked` and `blocked` are when each thread last looked at the queue in `wait` and
      last took `B` there, and `pushes` and `pops` are the values pushed to the back and popped from the front. */
  datatype State<T> = State(
    items: seq<Entry<T>>, q: Holder, b: Holder, pc: seq<Pc<T>>,
    clock: nat, checked: map<Tid, nat>, blocked: map<Tid, nat>, pushes: seq<T>, pops: seq<T>)

  /** `Notify(t, u)`: the notification of `t` wakes `u`. */
  datatype Step<T> = Call(t: Tid, op: Op<T>) | Go(t: Tid) | Notify(t: Tid, u: Tid) | Spurious(t: Tid)

  function Start<T>(n: nat): State<T> {
    State([], Free, Free, seq(n, _ => Idle), 0, map[], map[], [], [])
  }

  predicate HoldsQ<T>(pc: Pc<T>) {
    pc.InBody? || pc.Pushed? || pc.Notifying? || pc.Notified? || pc.Leaving? || pc.InCheck? || pc.Checked?
  }

  predicate HoldsB<T>(pc: Pc<T>) {
    pc.Notifying? || pc.Notified? || pc.Blocked? || pc.Woken?
  }

  predicate WantsQ<T>(pc: Pc<T>) {
    pc.Calling? || pc.Checking?
  }

  predicate WantsB<T>(pc: Pc<T>) {
    pc.Pushed? || pc.Blocking? || pc.Waking?
  }

  predicate SomeParked<T>(s: State<T>) {
    exists u :: 0 <= u < |s.pc| && s.pc[u].Parked?
  }

  predicate Enabled<T>(s: State<T>, step: Step<T>) {
    step.t < |s.pc| &&
    var pc := s.pc[step.t];
    match step
    case Call(t, op) => pc.Idle?
    case Spurious(t) => pc.Parked?
    case Notify(t, u) => pc.Notifying? && u < |s.pc| && s.pc[u].Parked?
    case Go(t) =>
      && !pc.Idle? && !pc.Parked?
      && (WantsQ(pc) ==> s.q.Free?)
      && (WantsB(pc) ==> s.b.Free?)
      && (pc.Notifying? ==> !SomeParked(s))
      && (pc.InBody? && (pc.op.PopFront? || pc.op.PopBack?) ==> s.items != [])
  }

  function MarkNotified<T>(items: seq<Entry<T>>, id: nat, now: nat): (r: seq<Entry<T>>)
    ensures |r| == |items|
    ensures forall i :: 0 <= i < |items| ==>
              r[i] == if items[i].id == id then items[i].(notified := Then(now)) else items[i]
  {
    seq(|items|, i requires 0 <= i < |items| =>
      if items[i].id == id then items[i].(notified := Then(now)) else items[i])
  }

  /** What an operation does to the queue under `Q`; a push takes its number from the clock. */
  function Body<T>(s: State<T>, op: Op<T>): seq<Entry<T>>
    requires op.PopFront? || op.PopBack? ==> s.items != []
  {
    match op
    case PushBack(x) => s.items + [Entry(x, s.clock, NotYet)]
    case PushFront(x) => [Entry(x, s.clock, NotYet)] + s.items
    case PopFront => s.items[1..]
    case PopBack => s.items[..|s.items| - 1]
    case Clear => []
    case Observe => s.items
    case Wait => s.items
  }

  /** Where a thread is after its own step; a push is known by the time of its insertion. */
  function Next<T>(pc: Pc<T>, empty: bool, now: nat): Pc<T> {
    match pc
    case Idle => Idle
    case Parked => Parked
    case Calling(op) => InBody(op)
    case InBody(op) => if op.PushBack? || op.PushFront? then Pushed(now) else Leaving
    case Pushed(id) => Notifying(id)
    case Notifying(_) => Notified
    case Notified => Leaving
    case Leaving => Idle
    case Checking => InCheck
    case InCheck => Checked(empty)
    case Checked(wasEmpty) => if wasEmpty then Blocking else Idle
    case Blocking => Blocked
    case Blocked => Parked
    case Waking => Woken
    case Woken => Checking
  }

  /** What that step does to the rest of the state. */
  function Effect<T>(s: State<T>, t: Tid): State<T>
    requires Enabled(s, Go(t))
  {
    match s.pc[t]
    case Idle => s
    case Parked => s
    case Calling(_) => s.(q := HeldBy(t))
    case InBody(op) =>
      s.(items := Body(s, op),
         pushes := if op.PushBack? then s.pushes + [op.x] else s.pushes,
         pops := if op.PopFront? then s.pops + [s.items[0].value] else s.pops)
    case Pushed(_) => s.(b := HeldBy(t))
    case Notifying(id) => s.(items := MarkNotified(s.items, id, s.clock))
    case Notified => s.(b := Free)
    case Leaving => s.(q := Free)
    case Checking => s.(q := HeldBy(t))
    case InCheck => s.(checked := s.checked[t := s.clock])
    case Checked(_) => s.(q := Free)
    case Blocking => s.(b := HeldBy(t), blocked := s.blocked[t := s.clock])
    case Blocked => s.(b := Free)
    case Waking => s.(b := HeldBy(t))
    case Woken => s.(b := Free)
  }

  function Advance<T>(s: State<T>, t: Tid): State<T>
    requires Enabled(s, Go(t))
  {
    Effect(s, t).(pc := s.pc[t := Next(s.pc[t], s.items == [], s.clock)])
  }

  function Apply<T>(s: State<T>, step: Step<T>): State<T>
    requires Enabled(s, step)
  {
    (match step
     case Call(t, op) => s.(pc := s.pc[t := if op.Wait? then Checking else Calling(op)])
     case Go(t) => Advance(s, t)
     case Notify(t, u) =>
       s.(items := MarkNotified(s.items, s.pc[t].id, s.clock), pc := s.pc[t := Notified][u := Waking])
     case Spurious(t) => s.(pc := s.pc[t := Waking])).(clock := s.clock + 1)
  }

  ghost predicate Run<T>(s: State<T>, steps: seq<Step<T>>, r: State<T>)
    decreases |steps|
  {
    if steps == [] then r == s
    else Enabled(s, steps[0]) && Run(Apply(s, steps[0]), steps[1..], r)
  }

  // ---- Locks ----

  /** Each mutex is held by exactly the thread whose position says so. */
  predicate LockInv<T>(s: State<T>) {
    && (forall t :: 0 <= t < |s.pc| ==> (HoldsQ(s.pc[t]) <==> s.q == HeldBy(t)))
    && (forall t :: 0 <= t < |s.pc| ==> (HoldsB(s.pc[t]) <==> s.b == HeldBy(t)))
    && (s.q.HeldBy? ==> s.q.tid < |s.pc|)
    && (s.b.HeldBy? ==> s.b.tid < |s.pc|)
  }

  /** The holder of a mutex after thread `t` moved: it takes only what is free, and drops only what it holds. */
  predicate Passes(was: Holder, now: Holder, t: Tid, had: bool, has: bool) {
    (has && !had ==> was.Free?) && now == if has then HeldBy(t) else if had then Free else was
  }

  ghost predicate Moves<T>(s: State<T>, t: Tid, pc: Pc<T>, r: State<T>) {
    && t < |s.pc| && r.pc == s.pc[t := pc]
    && Passes(s.q, r.q, t, HoldsQ(s.pc[t]), HoldsQ(pc))
    && Passes(s.b, r.b, t, HoldsB(s.pc[t]), HoldsB(pc))
  }

  lemma MoveKeepsLockInv<T>(s: State<T>, t: Tid, pc: Pc<T>, r: State<T>)
    requires LockInv(s) && Moves(s, t, pc, r)
    ensures LockInv(r)
  {
    hide HoldsQ, HoldsB;
  }

  lemma StepKeepsLockInv<T>(s: State<T>, step: Step<T>)
    requires LockInv(s) && Enabled(s, step)
    ensures LockInv(Apply(s, step)) && |Apply(s, step).pc| == |s.pc|
  {
    hide Body, MarkNotified, SomeParked;
    var r := Apply(s, step);
    if step.Notify? {
      var m := r.(pc := s.pc[step.t := Notified]);
      MoveKeepsLockInv(s, step.t, Notified, m);
      MoveKeepsLockInv(m, step.u, Waking, r);
    } else {
      MovesByOne(s, step);
      MoveKeepsLockInv(s, step.t, r.pc[step.t], r);
    }
  }

  lemma AdvanceMoves<T>(s: State<T>, t: Tid)
    requires Enabled(s, Go(t))
    requires HoldsQ(s.pc[t]) <==> s.q == HeldBy(t)
    requires HoldsB(s.pc[t]) <==> s.b == HeldBy(t)
    ensures |Advance(s, t).pc| == |s.pc| && Moves(s, t, Advance(s, t).pc[t], Advance(s, t))
  {
    hide Body, MarkNotified, SomeParked;
  }

  lemma MovesByOne<T>(s: State<T>, step: Step<T>)
    requires LockInv(s) && Enabled(s, step) && !step.Notify?
    ensures |Apply(s, step).pc| == |s.pc|
    ensures Moves(s, step.t, Apply(s, step).pc[step.t], Apply(s, step))
  {
    var pc := s.pc[step.t];
    assert (HoldsQ(pc) <==> s.q == HeldBy(step.t)) && (HoldsB(pc) <==> s.b == HeldBy(step.t));
    hide LockInv, Advance, SomeParked;
    if step.Go? {
      AdvanceMoves(s, step.t);
    }
  }

  lemma {:induction false} RunKeepsLockInv<T>(s: State<T>, steps: seq<Step<T>>, r: State<T>)
    requires LockInv(s) && Run(s, steps, r)
    ensures LockInv(r)
    decreases |steps|
  {
    hide LockInv, Enabled, Apply;
    if steps != [] {
      StepKeepsLockInv(s, steps[0]);
      RunKeepsLockInv(Apply(s, steps[0]), steps[1..], r);
    }
  }

  /** `t` waits for a mutex that `u` holds. */
  predicate WaitsFor<T>(s: State<T>, t: Tid, u: Tid) {
    t < |s.pc| && u < |s.pc| &&
    ((WantsQ(s.pc[t]) && s.q == HeldBy(u)) || (WantsB(s.pc[t]) && s.b == HeldBy(u)))
  }

  ghost predicate WaitChain<T>(s: State<T>, chain: seq<Tid>) {
    |chain| >= 2 && forall i :: 0 <= i < |chain| - 1 ==> WaitsFor(s, chain[i], chain[i + 1])
  }

  lemma RunFromStart<T>(n: nat, steps: seq<Step<T>>, s: State<T>)
    requires Run(Start(n), steps, s)
    ensures LockInv(s)
  {
    hide Run;
    RunKeepsLockInv(Start(n), steps, s);
  }

  lemma FirstWaitIsForAnother<T>(s: State<T>, t: Tid, u: Tid)
    requires LockInv(s) && WaitsFor(s, t, u)
    ensures t != u
  {
  }

  lemma SecondWaitIsLast<T>(s: State<T>, t: Tid, u: Tid, v: Tid)
    requires LockInv(s) && WaitsFor(s, t, u) && WaitsFor(s, u, v)
    ensures t != u && t != v && u != v && forall w :: !WaitsFor(s, v, w)
  {
  }

  /** Deadlock freedom: for any number of threads, in every reachable state, a chain of threads that wait for each
      other's mutexes has at most three threads, never closes into a cycle, and ends in a thread that waits for no
      mutex. */
  lemma NoDeadlock<T>(n: nat, steps: seq<Step<T>>, s: State<T>, chain: seq<Tid>)
    requires Run(Start(n), steps, s) && WaitChain(s, chain)
    ensures |chain| <= 3
    ensures chain[0] != chain[|chain| - 1]
    ensures forall i, j :: 0 <= i < j < |chain| ==> chain[i] != chain[j]
    ensures |chain| == 3 ==> forall u :: !WaitsFor(s, chain[2], u)
  {
    hide Run, LockInv, WaitsFor;
    RunFromStart(n, steps, s);
    assert WaitsFor(s, chain[0], chain[1]);
    if |chain| == 2 {
      FirstWaitIsForAnother(s, chain[0], chain[1]);
    } else {
      assert WaitsFor(s, chain[1], chain[2]);
      assert |chain| > 3 ==> WaitsFor(s, chain[2], chain[3]);
      SecondWaitIsLast(s, chain[0], chain[1], chain[2]);
    }
  }

  predicate Busy<T>(pc: Pc<T>) {
    !pc.Idle? && !pc.Parked?
  }

  predicate PopsEmpty<T>(s: State<T>, t: Tid) {
    t < |s.pc| && s.pc[t].InBody? && (s.pc[t].op.PopFront? || s.pc[t].op.PopBack?) && s.items == []
  }

  /** Progress: whenever some thread is inside an operation and not asleep, some thread can take a step -- unless
      a caller pops the empty queue. */
  lemma SomeoneCanGo<T>(n: nat, steps: seq<Step<T>>, s: State<T>, t: Tid)
    returns (step: Step<T>)
    requires Run(Start(n), steps, s) && t < |s.pc| && Busy(s.pc[t])
    requires forall u :: !PopsEmpty(s, u)
    ensures Enabled(s, step) && (step.Go? || step.Notify?)
  {
    hide Run;
    RunKeepsLockInv(Start(n), steps, s);
    var u := if s.b.HeldBy? then s.b.tid else if s.q.HeldBy? then s.q.tid else t;
    assert !PopsEmpty(s, u);
    if s.pc[u].Notifying? && SomeParked(s) {
      var w :| 0 <= w < |s.pc| && s.pc[w].Parked?;
      step := Notify(u, w);
    } else {
      step := Go(u);
    }
  }

  // ---- wait, with a single consumer ----

  predicate Consumes<T>(op: Op<T>) {
    op.PopFront? || op.PopBack? || op.Clear? || op.Wait?
  }

  /** Only thread `c` removes elements or waits. */
  ghost predicate OneConsumer<T>(c: Tid, steps: seq<Step<T>>) {
    forall step | step in steps :: step.Call? && Consumes(step.op) ==> step.t == c
  }

  predicate InWait<T>(pc: Pc<T>) {
    pc.Checking? || pc.InCheck? || pc.Checked? || pc.Blocking? || pc.Blocked? || pc.Parked? || pc.Waking? || pc.Woken?
  }

  ghost predicate OthersOnlyPush<T>(s: State<T>, c: Tid) {
    forall t :: 0 <= t < |s.pc| && t != c ==> PushesOnly(s.pc[t])
  }

  /** The push of this entry has inserted it and not notified yet. */
  ghost predicate PushUnderWay<T>(s: State<T>, e: Entry<T>) {
    && s.q.HeldBy? && s.q.tid < |s.pc|
    && (s.pc[s.q.tid] == Pushed(e.id) || s.pc[s.q.tid] == Notifying(e.id))
  }

  predicate NotifiedBetween<T>(e: Entry<T>, lo: nat, hi: nat) {
    e.notified.Then? && lo < e.notified.at < hi
  }

  /** What `wait` knows at each of its positions. */
  ghost predicate ConsumerInv<T>(s: State<T>, c: Tid) {
    && c < |s.pc|
    && (forall e | e in s.items :: e.id < s.clock && (e.notified.Then? ==> e.notified.at < s.clock))
    && (forall e | e in s.items :: e.notified.NotYet? <==> PushUnderWay(s, e))
    && (s.pc[c] == Checked(true) ==> s.items == [])
    && (s.pc[c] == Checked(false) ==> s.items != [])
    && (s.pc[c].Checked? ==> c in s.checked && s.checked[c] < s.clock)
    && (s.pc[c].Blocking? ==>
          c in s.checked && s.checked[c] < s.clock &&
          forall e | e in s.items :: PushUnderWay(s, e) || NotifiedBetween(e, s.checked[c], s.clock))
    && (s.pc[c].Blocked? || s.pc[c].Parked? ==>
          c in s.checked && c in s.blocked && s.checked[c] < s.blocked[c] < s.clock &&
          forall e | e in s.items :: PushUnderWay(s, e) || NotifiedBetween(e, s.checked[c], s.blocked[c]))
  }

  ghost predicate WaitInv<T>(s: State<T>, c: Tid) {
    LockInv(s) && OthersOnlyPush(s, c) && ConsumerInv(s, c)
  }

  predicate PushesOnly<T>(pc: Pc<T>) {
    !InWait(pc) && (pc.Calling? || pc.InBody? ==> !Consumes(pc.op))
  }

  lemma StepKeepsOthers<T>(s: State<T>, step: Step<T>, c: Tid)
    requires OthersOnlyPush(s, c) && Enabled(s, step)
    requires step.Call? && Consumes(step.op) ==> step.t == c
    ensures OthersOnlyPush(Apply(s, step), c)
  {
    hide Effect, MarkNotified, SomeParked, WantsQ, WantsB;
  }

  /** A step that leaves the entries alone, and with them who is pushing and where `c` is. */
  lemma IdleStepKeepsConsumer<T>(s: State<T>, r: State<T>, c: Tid)
    requires ConsumerInv(s, c) && c < |r.pc| && r.pc[c] == s.pc[c]
    requires r.items == s.items && r.clock == s.clock + 1 && r.checked == s.checked && r.blocked == s.blocked
    requires forall e | e in s.items :: PushUnderWay(s, e) <==> PushUnderWay(r, e)
    ensures ConsumerInv(r, c)
  {
    hide PushUnderWay;
  }

  /** A push inserts its entry. */
  lemma PushKeepsConsumer<T>(s: State<T>, t: Tid, c: Tid)
    requires WaitInv(s, c) && Enabled(s, Go(t)) && s.pc[t].InBody? && (s.pc[t].op.PushBack? || s.pc[t].op.PushFront?)
    ensures ConsumerInv(Apply(s, Go(t)), c)
  {
    var r := Apply(s, Go(t));
    assert s.q == HeldBy(t);
    var e := Entry(s.pc[t].op.x, s.clock, NotYet);
    assert PushUnderWay(r, e);
    assert forall f | f in r.items :: f == e || f in s.items;
    assert forall f | f in s.items :: !PushUnderWay(s, f) && !PushUnderWay(r, f);
  }

  /** The notification reaches a parked consumer: it does not stay parked. */
  lemma NotifyWakesConsumer<T>(s: State<T>, step: Step<T>, c: Tid)
    requires WaitInv(s, c) && Enabled(s, step) && s.pc[step.t].Notifying? && (step.Go? || step.Notify?)
    ensures !Apply(s, step).pc[c].Parked?
  {
    if s.pc[c].Parked? {
      assert SomeParked(s);
      assert step.Notify? && s.pc[step.u].Parked? && step.u == c;
    }
  }

  /** A push notifies: its entry, and no other, gets its time. */
  lemma NotifyMarks<T>(s: State<T>, step: Step<T>)
    requires Enabled(s, step) && s.pc[step.t].Notifying? && (step.Go? || step.Notify?)
    ensures var r := Apply(s, step);
            && r.items == MarkNotified(s.items, s.pc[step.t].id, s.clock)
            && r.clock == s.clock + 1 && r.q == s.q && r.checked == s.checked
            && |r.pc| == |s.pc| && r.pc[step.t] == Notified
            && forall u :: 0 <= u < |s.pc| && u != step.t ==> r.pc[u] == s.pc[u] || r.pc[u].Waking?
  {
    hide MarkNotified, SomeParked, WantsQ, WantsB;
  }

  lemma NotifiedEntry<T>(s: State<T>, t: Tid, c: Tid, r: State<T>, e: Entry<T>)
    requires LockInv(s) && ConsumerInv(s, c) && t < |s.pc| && s.pc[t].Notifying?
    requires r.items == MarkNotified(s.items, s.pc[t].id, s.clock) && r.clock == s.clock + 1
    requires e in r.items
    ensures e.id < r.clock && e.notified.Then? && e.notified.at < r.clock
    ensures e in s.items || e.notified == Then(s.clock)
  {
    assert s.q == HeldBy(t);
    hide LockInv;
    var i :| 0 <= i < |r.items| && r.items[i] == e;
    assert s.items[i] in s.items;
  }

  lemma NotifyKeepsConsumer<T>(s: State<T>, step: Step<T>, c: Tid)
    requires WaitInv(s, c) && Enabled(s, step) && s.pc[step.t].Notifying? && (step.Go? || step.Notify?)
    ensures ConsumerInv(Apply(s, step), c)
  {
    var t := step.t;
    var r := Apply(s, step);
    assert s.q == HeldBy(t) && s.b == HeldBy(t);
    assert !s.pc[c].Blocked? && !s.pc[c].Checked?;
    NotifyWakesConsumer(s, step, c);
    NotifyMarks(s, step);
    hide Apply, Enabled, OthersOnlyPush, LockInv;
    hide MarkNotified;
    forall e | e in r.items
      ensures e.id < r.clock && e.notified.Then? && e.notified.at < r.clock && !PushUnderWay(r, e)
      ensures e in s.items || e.notified == Then(s.clock)
    {
      NotifiedEntry(s, t, c, r, e);
    }
  }

  predicate NoPushStep<T>(s: State<T>, step: Step<T>) {
    step.t < |s.pc| && !s.pc[step.t].Notifying? &&
    (step.Go? && s.pc[step.t].InBody? ==> !s.pc[step.t].op.PushBack? && !s.pc[step.t].op.PushFront?)
  }

  lemma NoNewEntry<T>(s: State<T>, step: Step<T>)
    requires Enabled(s, step) && NoPushStep(s, step)
    ensures forall e | e in Apply(s, step).items :: e in s.items
  {
    hide MarkNotified, SomeParked, WantsQ, WantsB;
  }

  /** The push that a thread is in the middle of, if it is. */
  function PushOf<T>(pc: Pc<T>): Time {
    if pc.Pushed? || pc.Notifying? then Then(pc.id) else NotYet
  }

  lemma SamePush<T>(s: State<T>, step: Step<T>)
    requires Enabled(s, step) && NoPushStep(s, step)
    ensures step.t < |Apply(s, step).pc| && PushOf(Apply(s, step).pc[step.t]) == PushOf(s.pc[step.t])
  {
    hide Body, MarkNotified, SomeParked, WantsQ, WantsB;
  }

  lemma MoveKeepsPush<T>(s: State<T>, t: Tid, pc: Pc<T>, r: State<T>, e: Entry<T>)
    requires LockInv(s) && Moves(s, t, pc, r) && PushOf(pc) == PushOf(s.pc[t])
    ensures PushUnderWay(s, e) <==> PushUnderWay(r, e)
  {
    assert HoldsQ(s.pc[t]) <==> s.q == HeldBy(t);
    hide LockInv, HoldsB;
  }

  /** A step that is no push's insertion or notification adds no entry, and leaves every push where it was. */
  lemma QuietStep<T>(s: State<T>, step: Step<T>)
    requires LockInv(s) && Enabled(s, step) && NoPushStep(s, step)
    ensures var r := Apply(s, step);
            forall e | e in r.items :: e in s.items && (PushUnderWay(s, e) <==> PushUnderWay(r, e))
  {
    var r := Apply(s, step);
    assert !step.Notify?;
    hide LockInv, PushUnderWay, Apply, Enabled, NoPushStep, Moves, PushOf;
    NoNewEntry(s, step);
    MovesByOne(s, step);
    SamePush(s, step);
    forall e | e in r.items ensures PushUnderWay(s, e) <==> PushUnderWay(r, e) {
      MoveKeepsPush(s, step.t, r.pc[step.t], r, e);
    }
  }

  /** The consumer's own steps, pushes apart. */
  lemma ConsumerStepKeepsConsumer<T>(s: State<T>, step: Step<T>, c: Tid)
    requires ConsumerInv(s, c) && Enabled(s, step) && NoPushStep(s, step) && step.t == c
    requires forall e | e in Apply(s, step).items ::
               e in s.items && (PushUnderWay(s, e) <==> PushUnderWay(Apply(s, step), e))
    ensures ConsumerInv(Apply(s, step), c)
  {
    hide MarkNotified, SomeParked, PushUnderWay, WantsQ, WantsB, NotifiedBetween;
  }

  /** Another thread's step that is no push's insertion or notification changes nothing the consumer relies on. */
  lemma OtherStepIsIdle<T>(s: State<T>, step: Step<T>, c: Tid)
    requires OthersOnlyPush(s, c) && Enabled(s, step) && NoPushStep(s, step) && step.t != c && c < |s.pc|
    ensures var r := Apply(s, step);
            r.items == s.items && r.clock == s.clock + 1 && r.checked == s.checked && r.blocked == s.blocked &&
            c < |r.pc| && r.pc[c] == s.pc[c]
  {
    hide MarkNotified, SomeParked, WantsQ, WantsB;
  }

  lemma StepKeepsWaitInv<T>(s: State<T>, step: Step<T>, c: Tid)
    requires WaitInv(s, c) && Enabled(s, step)
    requires step.Call? && Consumes(step.op) ==> step.t == c
    ensures WaitInv(Apply(s, step), c)
  {
    StepKeepsLockInv(s, step);
    StepKeepsOthers(s, step, c);
    assert c < |s.pc|;
    hide LockInv, OthersOnlyPush, ConsumerInv, PushUnderWay, Apply;
    if s.pc[step.t].Notifying? {
      NotifyKeepsConsumer(s, step, c);
    } else if !NoPushStep(s, step) {
      PushKeepsConsumer(s, step.t, c);
    } else {
      QuietStep(s, step);
      if step.t == c {
        ConsumerStepKeepsConsumer(s, step, c);
      } else {
        OtherStepIsIdle(s, step, c);
        IdleStepKeepsConsumer(s, Apply(s, step), c);
      }
    }
  }

  lemma StartWaitInv<T>(n: nat, c: Tid)
    requires c < n
    ensures WaitInv(Start<T>(n), c)
  {
  }

  lemma {:induction false} RunKeepsWaitInv<T>(s: State<T>, steps: seq<Step<T>>, r: State<T>, c: Tid)
    requires WaitInv(s, c) && Run(s, steps, r) && OneConsumer(c, steps)
    ensures WaitInv(r, c)
    decreases |steps|
  {
    hide WaitInv, Enabled, Apply;
    if steps != [] {
      assert steps[0] in steps;
      StepKeepsWaitInv(s, steps[0], c);
      RunKeepsWaitInv(Apply(s, steps[0]), steps[1..], r, c);
    }
  }

  /** `wait` returns -- the consumer has seen `empty()` answer false -- only with the queue non-empty, however it
      was woken, spurious wakeups included. */
  lemma WaitReturnsNonEmpty<T>(n: nat, steps: seq<Step<T>>, s: State<T>, c: Tid)
    requires c < n && Run(Start(n), steps, s) && OneConsumer(c, steps)
    requires c < |s.pc| && s.pc[c] == Checked(false)
    ensures s.items != []
    ensures Enabled(s, Go(c)) && Apply(s, Go(c)).pc[c].Idle? && Apply(s, Go(c)).items == s.items
  {
    hide Run, LockInv;
    StartWaitInv<T>(n, c);
    RunKeepsWaitInv(Start(n), steps, s, c);
  }

  lemma WaitEnds<T>(s: State<T>, step: Step<T>, c: Tid)
    requires WaitInv(s, c) && Enabled(s, step) && InWait(s.pc[c])
    ensures c < |Apply(s, step).pc|
    ensures !InWait(Apply(s, step).pc[c]) ==>
              s.items != [] && Apply(s, step).items == s.items && Apply(s, step).pc[c].Idle?
  {
    hide LockInv, OthersOnlyPush, MarkNotified, SomeParked, WantsQ, WantsB;
  }

  /** The only way out of `wait`: from its call on the consumer stays inside, and any step of any run that takes it
      out, however often it slept and was woken before, finds the queue non-empty and leaves it as it is. */
  lemma WaitEndsOnlyNonEmpty<T>(n: nat, steps: seq<Step<T>>, s: State<T>, step: Step<T>, c: Tid)
    requires c < n && Run(Start(n), steps, s) && OneConsumer(c, steps) && Enabled(s, step)
    ensures c < |s.pc| == |Apply(s, step).pc|
    ensures step == Call(c, Wait) ==> InWait(Apply(s, step).pc[c])
    ensures InWait(s.pc[c]) && !InWait(Apply(s, step).pc[c]) ==>
              s.items != [] && Apply(s, step).items == s.items && Apply(s, step).pc[c].Idle?
  {
    hide Run, LockInv, OthersOnlyPush, Effect, MarkNotified, SomeParked, WantsQ, WantsB;
    StartWaitInv<T>(n, c);
    RunKeepsWaitInv(Start(n), steps, s, c);
    StepKeepsThreads(s, step);
    if InWait(s.pc[c]) {
      WaitEnds(s, step, c);
    }
  }

  /** The exact wakeup window: while the only consumer is parked, each queued element's push either has not
      notified yet, or notified after the consumer's last `empty()` check and before it took `m_oMuxBlocking`. */
  lemma ParkedWindow<T>(n: nat, steps: seq<Step<T>>, s: State<T>, c: Tid)
    requires c < n && Run(Start(n), steps, s) && OneConsumer(c, steps)
    requires c < |s.pc| && s.pc[c].Parked?
    ensures forall e | e in s.items ::
              (e.notified.NotYet? && PushUnderWay(s, e)) ||
              (c in s.checked && c in s.blocked && NotifiedBetween(e, s.checked[c], s.blocked[c]))
  {
    hide Run, LockInv;
    StartWaitInv<T>(n, c);
    RunKeepsWaitInv(Start(n), steps, s, c);
  }

  // ---- Popping after a look, and sleeping after one ----

  /** Along the run the consumer `c` removes nothing. */
  ghost predicate RunWithoutRemoval<T>(s: State<T>, steps: seq<Step<T>>, r: State<T>, c: Tid)
    decreases |steps|
  {
    if steps == [] then r == s
    else
      && Enabled(s, steps[0])
      && !(steps[0] == Go(c) && s.pc[c].InBody? && Consumes(s.pc[c].op))
      && RunWithoutRemoval(Apply(s, steps[0]), steps[1..], r, c)
  }

  lemma StepRemovesNothing<T>(s: State<T>, step: Step<T>, c: Tid)
    requires OthersOnlyPush(s, c) && Enabled(s, step)
    requires !(step == Go(c) && s.pc[c].InBody? && Consumes(s.pc[c].op))
    ensures |Apply(s, step).items| >= |s.items|
  {
    hide SomeParked, WantsQ, WantsB;
  }

  lemma {:induction false} ElementsStay<T>(s: State<T>, steps: seq<Step<T>>, r: State<T>, c: Tid)
    requires OthersOnlyPush(s, c) && RunWithoutRemoval(s, steps, r, c) && OneConsumer(c, steps)
    ensures |r.items| >= |s.items|
    decreases |steps|
  {
    hide OthersOnlyPush, Enabled, Apply, Consumes;
    if steps != [] {
      assert steps[0] in steps;
      StepKeepsOthers(s, steps[0], c);
      StepRemovesNothing(s, steps[0], c);
      ElementsStay(Apply(s, steps[0]), steps[1..], r, c);
    }
  }

  /** Once the queue is not empty -- as `wait` or `empty()` has just told the only consumer -- it stays so until that
      consumer itself removes something, whatever all other threads do: its next pop finds an element. */
  lemma PopAfterLookIsSafe<T>(n: nat, before: seq<Step<T>>, s: State<T>, after: seq<Step<T>>, r: State<T>, c: Tid)
    requires c < n && Run(Start(n), before, s) && OneConsumer(c, before) && s.items != []
    requires RunWithoutRemoval(s, after, r, c) && OneConsumer(c, after)
    ensures r.items != [] && !PopsEmpty(r, c)
  {
    hide Run, RunWithoutRemoval, LockInv, ConsumerInv, OthersOnlyPush;
    StartWaitInv<T>(n, c);
    RunKeepsWaitInv(Start(n), before, s, c);
    ElementsStay(s, after, r, c);
  }

  /** The step puts an element into the queue. */
  predicate Inserts<T>(s: State<T>, step: Step<T>) {
    step.Go? && step.t < |s.pc| && s.pc[step.t].InBody? && (s.pc[step.t].op.PushBack? || s.pc[step.t].op.PushFront?)
  }

  ghost predicate SomeInsert<T>(s: State<T>, steps: seq<Step<T>>)
    decreases |steps|
  {
    steps != [] && Enabled(s, steps[0]) && (Inserts(s, steps[0]) || SomeInsert(Apply(s, steps[0]), steps[1..]))
  }

  lemma InsertionShows<T>(s: State<T>, step: Step<T>)
    requires Enabled(s, step) && s.items == []
    ensures Apply(s, step).items != [] <==> Inserts(s, step)
  {
    hide SomeParked, WantsQ, WantsB;
  }

  /** From an empty queue, and as long as the consumer removes nothing, the queue is empty exactly as long as no
      push has inserted. */
  lemma {:induction false} EmptyIffNoInsert<T>(s: State<T>, steps: seq<Step<T>>, r: State<T>, c: Tid)
    requires OthersOnlyPush(s, c) && s.items == []
    requires RunWithoutRemoval(s, steps, r, c) && OneConsumer(c, steps)
    ensures r.items != [] <==> SomeInsert(s, steps)
    decreases |steps|
  {
    hide OthersOnlyPush, Enabled, Apply, Consumes, Inserts;
    if steps != [] {
      assert steps[0] in steps;
      InsertionShows(s, steps[0]);
      StepKeepsOthers(s, steps[0], c);
      if Inserts(s, steps[0]) {
        ElementsStay(Apply(s, steps[0]), steps[1..], r, c);
      } else {
        EmptyIffNoInsert(Apply(s, steps[0]), steps[1..], r, c);
      }
    }
  }

  /** From an `empty()` that answered true to sleep. */
  predicate GoingToSleep<T>(pc: Pc<T>) {
    pc == Checked(true) || pc.Blocking? || pc.Blocked? || pc.Parked?
  }

  /** All along the run thread `c` goes to sleep or sleeps. */
  ghost predicate RunToSleep<T>(s: State<T>, steps: seq<Step<T>>, r: State<T>, c: Tid)
    decreases |steps|
  {
    c < |s.pc| && GoingToSleep(s.pc[c]) &&
    if steps == [] then r == s
    else Enabled(s, steps[0]) && RunToSleep(Apply(s, steps[0]), steps[1..], r, c)
  }

  lemma {:induction false} SleepRemovesNothing<T>(s: State<T>, steps: seq<Step<T>>, r: State<T>, c: Tid)
    requires RunToSleep(s, steps, r, c)
    ensures RunWithoutRemoval(s, steps, r, c)
    decreases |steps|
  {
    hide Enabled, Apply, Consumes;
    if steps != [] {
      SleepRemovesNothing(Apply(s, steps[0]), steps[1..], r, c);
    }
  }

  /** Only a check that finds the queue empty leads to sleep. */
  lemma SleepStartsWithCheck<T>(s: State<T>, step: Step<T>, c: Tid)
    requires Enabled(s, step) && c < |s.pc| && !GoingToSleep(s.pc[c])
    ensures |Apply(s, step).pc| == |s.pc|
    ensures GoingToSleep(Apply(s, step).pc[c]) ==> Apply(s, step).pc[c] == Checked(true)
  {
    hide SomeParked, Body, MarkNotified, WantsQ, WantsB;
  }

  /** A run that ends with `c` asleep has been going to sleep all along, or splits at the last check. */
  lemma {:induction false} LastCheck<T>(s: State<T>, steps: seq<Step<T>>, r: State<T>, c: Tid)
    returns (at: nat, m: State<T>)
    requires Run(s, steps, r) && c < |s.pc| && c < |r.pc| && GoingToSleep(r.pc[c])
    ensures RunToSleep(s, steps, r, c) ||
            (at <= |steps| && Run(s, steps[..at], m) && c < |m.pc| && m.pc[c] == Checked(true) &&
             RunToSleep(m, steps[at..], r, c))
    decreases |steps|
  {
    hide Enabled, Apply, GoingToSleep;
    at, m := 0, s;
    if steps != [] {
      var next := Apply(s, steps[0]);
      StepKeepsThreads(s, steps[0]);
      at, m := LastCheck(next, steps[1..], r, c);
      if RunToSleep(next, steps[1..], r, c) {
        if !GoingToSleep(s.pc[c]) {
          SleepStartsWithCheck(s, steps[0], c);
          at, m := 1, next;
          assert RunToSleep(next, steps[1..], r, c) && GoingToSleep(next.pc[c]);
          assert steps[..1][1..] == [] && Run(s, steps[..1], next);
        }
      } else {
        assert steps[..at + 1][1..] == steps[1..][..at] && steps[1..][at..] == steps[at + 1..];
        at := at + 1;
      }
    }
  }

  lemma StepKeepsThreads<T>(s: State<T>, step: Step<T>)
    requires Enabled(s, step)
    ensures |Apply(s, step).pc| == |s.pc|
  {
    hide SomeParked, Body, MarkNotified, WantsQ, WantsB;
  }

  lemma StartsAwake<T>(n: nat, steps: seq<Step<T>>, r: State<T>, c: Tid)
    requires c < n
    ensures !RunToSleep(Start(n), steps, r, c)
  {
    assert Start<T>(n).pc[c] == Idle;
  }

  /** Exactly when `wait` sleeps on a queue that is not empty: in every run that ends with the only consumer asleep
      there is its last check, which found the queue empty, and the queue is not empty now if and only if some push
      has inserted since. */
  lemma SleepsOnElementsIffPushed<T>(n: nat, steps: seq<Step<T>>, r: State<T>, c: Tid)
    returns (at: nat, s: State<T>)
    requires c < n && Run(Start(n), steps, r) && OneConsumer(c, steps)
    requires c < |r.pc| && r.pc[c].Parked?
    ensures at <= |steps| && Run(Start(n), steps[..at], s) && RunToSleep(s, steps[at..], r, c)
    ensures s.pc[c] == Checked(true) && s.items == []
    ensures r.items != [] <==> SomeInsert(s, steps[at..])
  {
    hide Run, RunToSleep, LockInv;
    at, s := LastCheck(Start(n), steps, r, c);
    StartsAwake(n, steps, r, c);
    assert OneConsumer(c, steps[..at]) && OneConsumer(c, steps[at..]);
    StartWaitInv<T>(n, c);
    RunKeepsWaitInv(Start(n), steps[..at], s, c);
    SleepRemovesNothing(s, steps[at..], r, c);
    hide OthersOnlyPush;
    EmptyIffNoInsert(s, steps[at..], r, c);
  }

  // ---- First in, first out ----

  function Values<T>(items: seq<Entry<T>>): (r: seq<T>)
    ensures |r| == |items| && forall i :: 0 <= i < |items| ==> r[i] == items[i].value
  {
    seq(|items|, i requires 0 <= i < |items| => items[i].value)
  }

  /** The operation works on one end of the queue as a first-in-first-out queue. */
  predicate Fifo<T>(op: Op<T>) {
    op.PushBack? || op.PopFront? || op.Observe? || op.Wait?
  }

  ghost predicate FifoInv<T>(s: State<T>) {
    && s.pushes == s.pops + Values(s.items)
    && forall t :: 0 <= t < |s.pc| && (s.pc[t].Calling? || s.pc[t].InBody?) ==> Fifo(s.pc[t].op)
  }

  lemma PushedLast<T>(pushes: seq<T>, pops: seq<T>, items: seq<Entry<T>>, e: Entry<T>)
    requires pushes == pops + Values(items)
    ensures pushes + [e.value] == pops + Values(items + [e])
  {
    assert Values(items + [e]) == Values(items) + [e.value];
    assert pops + Values(items) + [e.value] == pops + (Values(items) + [e.value]);
  }

  lemma FirstValue<T>(items: seq<Entry<T>>)
    requires items != []
    ensures Values(items) == [items[0].value] + Values(items[1..])
  {
  }

  lemma PoppedFirst<T>(pushes: seq<T>, pops: seq<T>, items: seq<Entry<T>>)
    requires pushes == pops + Values(items) && items != []
    ensures pushes == pops + [items[0].value] + Values(items[1..])
  {
    hide Values;
    FirstValue(items);
    var x, rest := items[0].value, Values(items[1..]);
    assert pops + ([x] + rest) == pops + [x] + rest;
  }

  lemma BodyIsFifo<T>(s: State<T>, t: Tid)
    requires FifoInv(s) && Enabled(s, Go(t)) && s.pc[t].InBody?
    ensures var r := Advance(s, t); r.pushes == r.pops + Values(r.items)
  {
    hide Values;
    match s.pc[t].op
    case PushBack(x) => PushedLast(s.pushes, s.pops, s.items, Entry(x, s.clock, NotYet));
    case PopFront => PoppedFirst(s.pushes, s.pops, s.items);
    case _ =>
  }

  /** An operation called stays the same one until it is over. */
  lemma StepKeepsFifoOps<T>(s: State<T>, step: Step<T>, t: Tid)
    requires Enabled(s, step) && (step.Call? ==> Fifo(step.op))
    requires t < |s.pc| && (s.pc[t].Calling? || s.pc[t].InBody? ==> Fifo(s.pc[t].op))
    ensures |Apply(s, step).pc| == |s.pc|
    ensures var pc := Apply(s, step).pc[t]; pc.Calling? || pc.InBody? ==> Fifo(pc.op)
  {
    hide SomeParked, Body, MarkNotified, Fifo, WantsQ, WantsB;
  }

  lemma MarkKeepsValues<T>(items: seq<Entry<T>>, id: nat, now: nat)
    ensures Values(MarkNotified(items, id, now)) == Values(items)
  {
  }

  /** Only the bodies of the operations touch the values. */
  lemma OtherStepKeepsValues<T>(s: State<T>, step: Step<T>)
    requires Enabled(s, step) && !(step.Go? && s.pc[step.t].InBody?)
    ensures var r := Apply(s, step); r.pushes == s.pushes && r.pops == s.pops && Values(r.items) == Values(s.items)
  {
    hide SomeParked, WantsQ, WantsB, Values, MarkNotified;
    if s.pc[step.t].Notifying? {
      MarkKeepsValues(s.items, s.pc[step.t].id, s.clock);
    }
  }

  lemma StepKeepsFifoInv<T>(s: State<T>, step: Step<T>)
    requires FifoInv(s) && Enabled(s, step) && (step.Call? ==> Fifo(step.op))
    ensures FifoInv(Apply(s, step))
  {
    var r := Apply(s, step);
    if step.Go? && s.pc[step.t].InBody? {
      BodyIsFifo(s, step.t);
    } else {
      OtherStepKeepsValues(s, step);
    }
    hide Enabled, Values, Fifo;
    assert r.pushes == r.pops + Values(r.items);
    hide Apply;
    StepKeepsFifoOps(s, step, step.t);
    forall t: nat | t < |r.pc| && (r.pc[t].Calling? || r.pc[t].InBody?) ensures Fifo(r.pc[t].op) {
      StepKeepsFifoOps(s, step, t);
    }
  }

  lemma {:induction false} RunKeepsFifoInv<T>(s: State<T>, steps: seq<Step<T>>, r: State<T>)
    requires FifoInv(s) && Run(s, steps, r)
    requires forall step | step in steps :: step.Call? ==> Fifo(step.op)
    ensures FifoInv(r)
    decreases |steps|
  {
    hide FifoInv, Enabled, Apply;
    if steps != [] {
      assert steps[0] in steps;
      StepKeepsFifoInv(s, steps[0]);
      RunKeepsFifoInv(Apply(s, steps[0]), steps[1..], r);
    }
  }

  /** Used with `push_back` and `pop_front`, by any number of threads on each side, the queue loses, adds and
      reorders nothing: what was pushed is what was popped followed by what is queued. */
  lemma QueueIsFifo<T>(n: nat, steps: seq<Step<T>>, s: State<T>)
    requires Run(Start(n), steps, s)
    requires forall step | step in steps :: step.Call? ==> Fifo(step.op)
    ensures s.pushes == s.pops + Values(s.items)
  {
    hide Run;
    assert FifoInv(Start<T>(n));
    RunKeepsFifoInv(Start(n), steps, s);
  }

  /** Both ends of the queue: what was pushed at an end is what a pop at that end takes, and the pop undoes the push;
      `clear` leaves nothing; looking leaves everything. */
  lemma BothEnds<T>(s: State<T>, x: T)
    ensures var r := s.(items := Body(s, PushBack(x)));
            r.items[|r.items| - 1].value == x && Body(r, PopBack) == s.items
    ensures var r := s.(items := Body(s, PushFront(x)));
            r.items[0].value == x && Body(r, PopFront) == s.items
    ensures s.items != [] ==> Body(s, PopFront) == s.items[1..] && Body(s, PopBack) <= s.items
    ensures Body(s, Clear) == [] && Body(s, Observe) == s.items
  {
  }

  // ---- The lost wakeup ----

  lemma {:induction false} RunSnoc<T>(s: State<T>, steps: seq<Step<T>>, r: State<T>, step: Step<T>)
    requires Run(s, steps, r) && Enabled(r, step)
    ensures Run(s, steps + [step], Apply(r, step))
    decreases |steps|
  {
    hide Enabled, Apply;
    if steps == [] {
      assert steps + [step] == [step] && [step][1..] == [];
    } else {
      assert (steps + [step])[1..] == steps[1..] + [step];
      RunSnoc(Apply(s, steps[0]), steps[1..], r, step);
    }
  }

  const IN_CHECK: State<bool> := State([], HeldBy(0), Free, [InCheck, Idle], 2, map[], map[], [], [])
  const CHECKED_EMPTY: State<bool> := State([], Free, Free, [Blocking, Idle], 4, map[0 := 2], map[], [], [])
  const PUSH_DONE: State<bool> :=
    State([Entry(true, 6, Then(8))], Free, Free, [Blocking, Idle], 11, map[0 := 2], map[], [true], [])
  const ASLEEP: State<bool> :=
    State([Entry(true, 6, Then(8))], Free, Free, [Parked, Idle], 13, map[0 := 2], map[0 := 11], [true], [])

  lemma ReachChecking() returns (steps: seq<Step<bool>>)
    ensures Run(Start(2), steps, IN_CHECK) && OneConsumer(0, steps)
  {
    hide Run, Body, MarkNotified, SomeParked;
    var s0 := Start<bool>(2);
    var call: Step<bool> := Call(0, Wait);
    assert s0.pc == [Idle, Idle];
    EmptyRun(s0);
    RunSnoc(s0, [], s0, call);
    var s1 := Apply(s0, call);
    assert s1 == State([], Free, Free, [Checking, Idle], 1, map[], map[], [], []);
    RunSnoc(s0, [] + [call], s1, Go(0));
    assert Apply(s1, Go(0)) == IN_CHECK;
    steps := [] + [call] + [Go(0)];
  }

  lemma ReachCheckedEmpty() returns (steps: seq<Step<bool>>)
    ensures Run(IN_CHECK, steps, CHECKED_EMPTY) && OneConsumer(0, steps)
  {
    hide Run, Body, MarkNotified, SomeParked;
    EmptyRun(IN_CHECK);
    RunSnoc(IN_CHECK, [], IN_CHECK, Go(0));
    var s := Apply(IN_CHECK, Go(0));
    assert s == State([], HeldBy(0), Free, [Checked(true), Idle], 3, map[0 := 2], map[], [], []);
    RunSnoc(IN_CHECK, [] + [Go(0)], s, Go(0));
    assert Apply(s, Go(0)) == CHECKED_EMPTY;
    steps := [] + [Go(0)] + [Go(0)];
  }

  lemma EmptyRun<T>(s: State<T>)
    ensures Run(s, [], s)
  {
  }

  const PUSH_INSERTED: State<bool> :=
    State([Entry(true, 6, NotYet)], HeldBy(1), Free, [Blocking, Pushed(6)], 7, map[0 := 2], map[], [true], [])

  /** A whole push between the consumer's check and its taking of the blocking mutex, in two parts. */
  lemma ReachPushInserted() returns (steps: seq<Step<bool>>)
    ensures Run(CHECKED_EMPTY, steps, PUSH_INSERTED) && OneConsumer(0, steps)
  {
    hide Run, MarkNotified, SomeParked;
    var s0 := CHECKED_EMPTY;
    var call := Call(1, PushBack(true));
    var go: Step<bool> := Go(1);
    EmptyRun(s0);
    RunSnoc(s0, [], s0, call);
    var s1 := Apply(s0, call);
    assert s1 == State([], Free, Free, [Blocking, Calling(PushBack(true))], 5, map[0 := 2], map[], [], []);
    RunSnoc(s0, [] + [call], s1, go);
    var s2 := Apply(s1, go);
    assert s2 == State([], HeldBy(1), Free, [Blocking, InBody(PushBack(true))], 6, map[0 := 2], map[], [], []);
    RunSnoc(s0, [] + [call] + [go], s2, go);
    assert Apply(s2, go) == PUSH_INSERTED;
    steps := [] + [call] + [go] + [go];
  }

  lemma ReachPushDone() returns (steps: seq<Step<bool>>)
    ensures Run(PUSH_INSERTED, steps, PUSH_DONE) && OneConsumer(0, steps)
  {
    hide Run, Body;
    var s0 := PUSH_INSERTED;
    var e, told := Entry(true, 6, NotYet), Entry(true, 6, Then(8));
    var go: Step<bool> := Go(1);
    EmptyRun(s0);
    RunSnoc(s0, [], s0, go);
    var s1 := Apply(s0, go);
    assert s1 == State([e], HeldBy(1), HeldBy(1), [Blocking, Notifying(6)], 8, map[0 := 2], map[], [true], []);
    RunSnoc(s0, [] + [go], s1, go);
    var s2 := Apply(s1, go);
    assert s2 == State([told], HeldBy(1), HeldBy(1), [Blocking, Notified], 9, map[0 := 2], map[], [true], []);
    RunSnoc(s0, [] + [go] + [go], s2, go);
    var s3 := Apply(s2, go);
    assert s3 == State([told], HeldBy(1), Free, [Blocking, Leaving], 10, map[0 := 2], map[], [true], []);
    RunSnoc(s0, [] + [go] + [go] + [go], s3, go);
    assert Apply(s3, go) == PUSH_DONE;
    steps := [] + [go] + [go] + [go] + [go];
  }

  lemma ReachAsleep() returns (steps: seq<Step<bool>>)
    ensures Run(PUSH_DONE, steps, ASLEEP) && OneConsumer(0, steps)
  {
    hide Run;
    EmptyRun(PUSH_DONE);
    RunSnoc(PUSH_DONE, [], PUSH_DONE, Go(0));
    var s := Apply(PUSH_DONE, Go(0));
    var e := Entry(true, 6, Then(8));
    assert s == State([e], Free, HeldBy(0), [Blocked, Idle], 12, map[0 := 2], map[0 := 11], [true], []);
    RunSnoc(PUSH_DONE, [] + [Go(0)], s, Go(0));
    assert Apply(s, Go(0)) == ASLEEP;
    steps := [] + [Go(0)] + [Go(0)];
  }

  lemma {:induction false} RunConcat<T>(s: State<T>, a: seq<Step<T>>, m: State<T>, b: seq<Step<T>>, r: State<T>)
    requires Run(s, a, m) && Run(m, b, r)
    ensures Run(s, a + b, r)
    decreases |a|
  {
    hide Enabled, Apply;
    if a == [] {
      assert a + b == b;
    } else {
      assert (a + b)[1..] == a[1..] + b;
      RunConcat(Apply(s, a[0]), a[1..], m, b, r);
    }
  }

  /** The window is real: with one consumer and one producer there is a run after which the consumer sleeps on a
      queue that is not empty, the push is over, and only a new call or a spurious wakeup can change anything. */
  lemma LostWakeup() returns (steps: seq<Step<bool>>)
    ensures Run(Start(2), steps, ASLEEP) && OneConsumer(0, steps)
    ensures ASLEEP.pc[0].Parked? && ASLEEP.pc[1].Idle? && ASLEEP.items != []
    ensures forall step :: Enabled(ASLEEP, step) ==> step.Call? || step.Spurious?
  {
    hide Run;
    var a0 := ReachChecking();
    var a1 := ReachCheckedEmpty();
    RunConcat(Start(2), a0, IN_CHECK, a1, CHECKED_EMPTY);
    var a := a0 + a1;
    var b := ReachPushInserted();
    var c := ReachPushDone();
    var d := ReachAsleep();
    RunConcat(Start(2), a, CHECKED_EMPTY, b, PUSH_INSERTED);
    RunConcat(Start(2), a + b, PUSH_INSERTED, c, PUSH_DONE);
    RunConcat(Start(2), a + b + c, PUSH_DONE, d, ASLEEP);
    steps := a + b + c + d;
  }
}
