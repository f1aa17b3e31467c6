/** Which clients a server holds: acceptance, broadcast with removal, and identifiers, over whole runs. */
module Rosters {
  import opened Bytes

  const FIRST_ID: u32 := 10000
  const ID_LIMIT: nat := 0x1_0000_0000

  /** The value of the id counter after `n` clients were accepted. */
  function CounterAfter(n: nat): u32 {
    (FIRST_ID + n) % ID_LIMIT
  }

  /** The elements of `xs` outside `gone`, in order. */
  function Without<T(==)>(xs: seq<T>, gone: set<T>): seq<T> {
    if xs == [] then []
    else Without(xs[..|xs| - 1], gone) + if xs[|xs| - 1] in gone then [] else [xs[|xs| - 1]]
  }

  /** The elements of `xs` inside `gone`, in order. */
  function Only<T(==)>(xs: seq<T>, gone: set<T>): seq<T> {
    if xs == [] then []
    else Only(xs[..|xs| - 1], gone) + if xs[|xs| - 1] in gone then [xs[|xs| - 1]] else []
  }

  function Elements<T(==)>(xs: seq<T>): set<T> {
    set x | x in xs
  }

  ghost predicate Distinct<T>(xs: seq<T>) {
    forall i, j :: 0 <= i < j < |xs| ==> xs[i] != xs[j]
  }

  lemma FilterSnoc<T>(xs: seq<T>, x: T, gone: set<T>)
    ensures Without(xs + [x], gone) == Without(xs, gone) + if x in gone then [] else [x]
    ensures Only(xs + [x], gone) == Only(xs, gone) + if x in gone then [x] else []
  {
    assert (xs + [x])[..|xs|] == xs;
  }

  lemma {:induction false} FilterMembers<T>(xs: seq<T>, gone: set<T>)
    ensures forall x :: x in Without(xs, gone) <==> x in xs && x !in gone
    ensures forall x :: x in Only(xs, gone) <==> x in xs && x in gone
    decreases |xs|
  {
    if xs != [] {
      var front, x := xs[..|xs| - 1], xs[|xs| - 1];
      FilterMembers(front, gone);
      assert forall y :: y in xs <==> y in front || y == x;
    }
  }

  lemma DistinctSnoc<T>(xs: seq<T>, x: T)
    ensures Distinct(xs + [x]) <==> Distinct(xs) && x !in xs
  {
    if Distinct(xs + [x]) {
      forall i, j | 0 <= i < j < |xs| ensures xs[i] != xs[j] {
        assert (xs + [x])[i] != (xs + [x])[j];
      }
      forall i | 0 <= i < |xs| ensures xs[i] != x {
        assert (xs + [x])[i] != (xs + [x])[|xs|];
      }
    }
  }

  lemma {:induction false} FilterDistinct<T>(xs: seq<T>, gone: set<T>)
    requires Distinct(xs)
    ensures Distinct(Without(xs, gone)) && Distinct(Only(xs, gone))
    decreases |xs|
  {
    if xs != [] {
      var front, x := xs[..|xs| - 1], xs[|xs| - 1];
      assert xs == front + [x];
      DistinctSnoc(front, x);
      FilterDistinct(front, gone);
      FilterMembers(front, gone);
      FilterSnoc(front, x, gone);
      if x in gone {
        DistinctSnoc(Only(front, gone), x);
      } else {
        DistinctSnoc(Without(front, gone), x);
      }
    }
  }

  lemma {:induction false} FilterSplits<T>(xs: seq<T>, gone: set<T>)
    ensures multiset(xs) == multiset(Without(xs, gone)) + multiset(Only(xs, gone))
    decreases |xs|
  {
    if xs != [] {
      var front, x := xs[..|xs| - 1], xs[|xs| - 1];
      assert xs == front + [x];
      FilterSplits(front, gone);
      FilterSnoc(front, x, gone);
    }
  }

  lemma DistinctConcat<T>(a: seq<T>, b: seq<T>)
    requires Distinct(a) && Distinct(b) && forall x :: x in a ==> x !in b
    ensures Distinct(a + b)
  {
    forall i, j | 0 <= i < j < |a + b| ensures (a + b)[i] != (a + b)[j] {
      if i < |a| <= j {
        assert (a + b)[i] in a && (a + b)[j] in b;
      }
    }
  }

  lemma {:induction false} WithoutTwice<T>(xs: seq<T>, a: set<T>, b: set<T>)
    ensures Without(Without(xs, a), b) == Without(xs, a + b)
    decreases |xs|
  {
    if xs != [] {
      var front, x := xs[..|xs| - 1], xs[|xs| - 1];
      WithoutTwice(front, a, b);
      if x !in a {
        FilterSnoc(Without(front, a), x, b);
      } else {
        assert Without(front, a) + [] == Without(front, a);
      }
    }
  }

  lemma {:induction false} WithoutAgrees<T>(xs: seq<T>, a: set<T>, b: set<T>)
    requires forall x | x in xs :: x in a <==> x in b
    ensures Without(xs, a) == Without(xs, b)
    decreases |xs|
  {
    if xs != [] {
      assert forall x | x in xs[..|xs| - 1] :: x in xs;
      WithoutAgrees(xs[..|xs| - 1], a, b);
    }
  }

  // ---- Runs ----

  /** `accepted` and `reported` are history: all clients ever approved, in order, and all ever passed to
      `OnClientDisconnect`; `ids[i]` is the id given to `accepted[i]`. */
  datatype Roster<C> = Roster(clients: seq<C>, nextId: u32, accepted: seq<C>, ids: seq<u32>, reported: seq<C>)

  /** `Accept` of a new connection, approved or denied; `MessageAll` when the connections in `closed` are. */
  datatype Step<C> = Accept(c: C, approved: bool) | MessageAll(closed: set<C>)

  function Empty<C>(): Roster<C> {
    Roster([], FIRST_ID, [], [], [])
  }

  predicate Enabled<C(==)>(r: Roster<C>, s: Step<C>) {
    s.Accept? ==> s.c !in r.accepted
  }

  function Apply<C(==)>(r: Roster<C>, s: Step<C>): Roster<C> {
    match s
    case Accept(c, approved) =>
      if approved then
        Roster(r.clients + [c], (r.nextId + 1) % ID_LIMIT, r.accepted + [c], r.ids + [r.nextId], r.reported)
      else r
    case MessageAll(closed) =>
      r.(clients := Without(r.clients, closed), reported := r.reported + Only(r.clients, closed))
  }

  /** Whom a broadcast reaches: the open clients other than the ignored one, in order. */
  function Recipients<C(==)>(clients: seq<C>, closed: set<C>, ignored: set<C>): seq<C> {
    Without(clients, closed + ignored)
  }

  ghost predicate Inv<C>(r: Roster<C>) {
    && Distinct(r.accepted) && Distinct(r.reported)
    && (forall c :: c in r.reported ==> c in r.accepted)
    && r.clients == Without(r.accepted, Elements(r.reported))
    && multiset(r.accepted) == multiset(r.clients) + multiset(r.reported)
    && |r.ids| == |r.accepted| && (forall i :: 0 <= i < |r.ids| ==> r.ids[i] == CounterAfter(i))
    && r.nextId == CounterAfter(|r.accepted|)
  }

  ghost predicate Run<C>(r: Roster<C>, steps: seq<Step<C>>, q: Roster<C>)
    decreases |steps|
  {
    if steps == [] then q == r
    else Enabled(r, steps[0]) && Run(Apply(r, steps[0]), steps[1..], q)
  }

  lemma EmptyInv<C>()
    ensures Inv(Empty<C>())
  {
  }

  lemma MessageAllKeepsInv<C>(r: Roster<C>, closed: set<C>)
    requires Inv(r)
    ensures Inv(Apply(r, MessageAll(closed)))
  {
    hide Without, Only;
    var gone, now := Elements(r.reported), Only(r.clients, closed);
    FilterMembers(r.accepted, gone);
    FilterMembers(r.clients, closed);
    FilterDistinct(r.accepted, gone);
    FilterDistinct(r.clients, closed);
    DistinctConcat(r.reported, now);
    FilterSplits(r.clients, closed);
    WithoutTwice(r.accepted, gone, closed);
    WithoutAgrees(r.accepted, gone + closed, Elements(r.reported + now));
  }

  lemma AcceptKeepsInv<C>(r: Roster<C>, c: C)
    requires Inv(r) && c !in r.accepted
    ensures Inv(Apply(r, Accept(c, true)))
  {
    hide Without, Only, Distinct;
    assert c !in r.reported;
    DistinctSnoc(r.accepted, c);
    FilterSnoc(r.accepted, c, Elements(r.reported));
    AddedOnce(r.accepted, r.clients, r.reported, c);
  }

  lemma AddedOnce<T>(all: seq<T>, held: seq<T>, gone: seq<T>, x: T)
    requires multiset(all) == multiset(held) + multiset(gone)
    ensures multiset(all + [x]) == multiset(held + [x]) + multiset(gone)
  {
  }

  lemma StepKeepsInv<C>(r: Roster<C>, s: Step<C>)
    requires Inv(r) && Enabled(r, s)
    ensures Inv(Apply(r, s))
  {
    match s
    case Accept(c, approved) =>
      if approved {
        AcceptKeepsInv(r, c);
      }
    case MessageAll(closed) => MessageAllKeepsInv(r, closed);
  }

  lemma {:induction false} RunKeepsInv<C>(r: Roster<C>, steps: seq<Step<C>>, q: Roster<C>)
    requires Inv(r) && Run(r, steps, q)
    ensures Inv(q)
    decreases |steps|
  {
    hide Inv, Apply;
    if steps != [] {
      StepKeepsInv(r, steps[0]);
      RunKeepsInv(Apply(r, steps[0]), steps[1..], q);
    }
  }

  /** What the invariant says about any one client. */
  lemma HeldOrReported<C>(r: Roster<C>, c: C)
    requires Inv(r)
    ensures Distinct(r.clients)
    ensures c in r.clients <==> c in r.accepted && c !in r.reported
    ensures multiset(r.accepted)[c] == (if c in r.accepted then 1 else 0)
  {
    hide Without, Only;
    FilterMembers(r.accepted, Elements(r.reported));
    FilterDistinct(r.accepted, Elements(r.reported));
    DistinctCount(r.accepted, c);
  }

  lemma {:induction false} DistinctCount<T>(xs: seq<T>, x: T)
    requires Distinct(xs)
    ensures multiset(xs)[x] == if x in xs then 1 else 0
    decreases |xs|
  {
    if xs != [] {
      var front := xs[..|xs| - 1];
      assert xs == front + [xs[|xs| - 1]];
      DistinctSnoc(front, xs[|xs| - 1]);
      DistinctCount(front, x);
    }
  }

  function ApprovedBy<C>(s: Step<C>): seq<C> {
    if s.Accept? && s.approved then [s.c] else []
  }

  /** The connections that a run offers and that are approved, in order. */
  function Approved<C>(steps: seq<Step<C>>): seq<C> {
    if steps == [] then [] else ApprovedBy(steps[0]) + Approved(steps[1..])
  }

  lemma StepAccepts<C>(r: Roster<C>, s: Step<C>)
    ensures Apply(r, s).accepted == r.accepted + ApprovedBy(s)
  {
  }

  lemma Associative<T>(a: seq<T>, b: seq<T>, c: seq<T>)
    ensures a + b + c == a + (b + c)
  {
  }

  lemma {:induction false} RunAccepts<C>(r: Roster<C>, steps: seq<Step<C>>, q: Roster<C>)
    requires Run(r, steps, q)
    ensures q.accepted == r.accepted + Approved(steps)
    decreases |steps|
  {
    hide Apply, ApprovedBy, Enabled;
    if steps == [] {
      assert r.accepted + [] == r.accepted;
    } else {
      StepAccepts(r, steps[0]);
      RunAccepts(Apply(r, steps[0]), steps[1..], q);
      Associative(r.accepted, ApprovedBy(steps[0]), Approved(steps[1..]));
    }
  }

  /** Conservation over any run of accepts, denials, closes and broadcasts: each accepted client is either still
      held or was reported as disconnected, exactly once and never both; the clients are held in acceptance order,
      without duplicates. */
  lemma MembershipConserved<C>(steps: seq<Step<C>>, r: Roster<C>)
    requires Run(Empty(), steps, r)
    ensures multiset(r.accepted) == multiset(r.clients) + multiset(r.reported)
    ensures r.clients == Without(r.accepted, Elements(r.reported))
    ensures Distinct(r.clients) && Distinct(r.reported)
    ensures forall c :: c in r.accepted ==> (c in r.clients <==> c !in r.reported)
    ensures r.accepted == Approved(steps)
  {
    hide Run, Without, Only, Approved;
    EmptyInv<C>();
    RunKeepsInv(Empty(), steps, r);
    RunAccepts(Empty(), steps, r);
    assert [] + Approved(steps) == Approved(steps);
    var gone := Elements(r.reported);
    FilterMembers(r.accepted, gone);
    FilterDistinct(r.accepted, gone);
  }

  /** One broadcast reaches each open, non-ignored client exactly once, and nobody else. */
  lemma BroadcastReachesOnce<C>(steps: seq<Step<C>>, r: Roster<C>, closed: set<C>, ignored: set<C>)
    requires Run(Empty(), steps, r)
    ensures var to := Recipients(r.clients, closed, ignored);
            Distinct(to) && forall c :: c in to <==> c in r.clients && c !in closed && c !in ignored
    ensures var q := Apply(r, MessageAll(closed));
            && (forall c :: c in q.clients <==> c in r.clients && c !in closed)
            && (forall c :: c in q.reported <==> c in r.reported || (c in r.clients && c in closed))
  {
    hide Run, Without, Only;
    MembershipConserved(steps, r);
    FilterMembers(r.clients, closed + ignored);
    FilterDistinct(r.clients, closed + ignored);
    FilterMembers(r.clients, closed);
  }

  lemma IdsOfInv<C>(r: Roster<C>)
    requires Inv(r)
    ensures (forall i, j :: 0 <= i < j < |r.ids| ==> r.ids[i] < r.ids[j]) <==> |r.accepted| <= ID_LIMIT - FIRST_ID
  {
    var wrap := ID_LIMIT - FIRST_ID;
    if |r.accepted| > wrap {
      assert r.ids[wrap] == CounterAfter(wrap) == 0 && r.ids[0] == CounterAfter(0) == FIRST_ID;
    } else {
      forall i, j | 0 <= i < j < |r.ids| ensures r.ids[i] < r.ids[j] {
        assert r.ids[i] == FIRST_ID + i && r.ids[j] == FIRST_ID + j;
      }
    }
  }

  /** The ids of all accepted clients increase strictly exactly as long as the 32-bit counter has not wrapped. */
  lemma IdsIncrease<C>(steps: seq<Step<C>>, r: Roster<C>)
    requires Run(Empty(), steps, r)
    ensures |r.ids| == |r.accepted| && forall i :: 0 <= i < |r.ids| ==> r.ids[i] == (10000 + i) % 0x1_0000_0000
    ensures (forall i, j :: 0 <= i < j < |r.ids| ==> r.ids[i] < r.ids[j]) <==>
              |r.accepted| <= 0x1_0000_0000 - 10000
  {
    EmptyInv<C>();
    RunKeepsInv(Empty(), steps, r);
    IdsOfInv(r);
  }

  /** The position of `c` in `xs`. */
  function Index<T(==)>(xs: seq<T>, c: T): (i: nat)
    requires c in xs
    ensures i < |xs| && xs[i] == c
  {
    var n := |xs| - 1;
    if xs[n] == c then n else
    assert c in xs[..n];
    Index(xs[..n], c)
  }

  lemma KeptFrom<T>(xs: seq<T>, gone: set<T>, x: T)
    requires x in Without(xs, gone)
    ensures x in xs && x !in gone
  {
    FilterMembers(xs, gone);
  }

  lemma {:induction false} WithoutKeepsOrder<T>(xs: seq<T>, gone: set<T>, i: nat, j: nat)
    requires Distinct(xs) && i < j < |Without(xs, gone)|
    ensures Without(xs, gone)[i] in xs && Without(xs, gone)[j] in xs
    ensures Index(xs, Without(xs, gone)[i]) < Index(xs, Without(xs, gone)[j])
    decreases |xs|
  {
    var n := |xs| - 1;
    var front := xs[..n];
    assert xs == front + [xs[n]];
    DistinctSnoc(front, xs[n]);
    FilterMembers(front, gone);
    FilterSnoc(front, xs[n], gone);
    var w := Without(front, gone);
    if j < |w| {
      WithoutKeepsOrder(front, gone, i, j);
    } else {
      KeptFrom(front, gone, w[i]);
    }
  }

  function IdOf<C(==)>(r: Roster<C>, c: C): u32
    requires c in r.accepted && |r.ids| == |r.accepted|
  {
    r.ids[Index(r.accepted, c)]
  }

  lemma ClientIdsOfInv<C>(r: Roster<C>, i: nat, j: nat)
    requires Inv(r) && |r.accepted| <= ID_LIMIT - FIRST_ID && i < j < |r.clients|
    ensures r.clients[i] in r.accepted && r.clients[j] in r.accepted
    ensures IdOf(r, r.clients[i]) < IdOf(r, r.clients[j])
  {
    hide Without;
    IdsOfInv(r);
    WithoutKeepsOrder(r.accepted, Elements(r.reported), i, j);
  }

  /** Along the clients held, ids increase strictly until the counter wraps. */
  lemma ClientIdsIncrease<C>(steps: seq<Step<C>>, r: Roster<C>, i: nat, j: nat)
    requires Run(Empty(), steps, r) && |r.accepted| <= ID_LIMIT - FIRST_ID && i < j < |r.clients|
    ensures r.clients[i] in r.accepted && r.clients[j] in r.accepted && |r.ids| == |r.accepted|
    ensures IdOf(r, r.clients[i]) < IdOf(r, r.clients[j])
  {
    hide Run, Without, Only;
    EmptyInv<C>();
    RunKeepsInv(Empty(), steps, r);
    ClientIdsOfInv(r, i, j);
  }
}
