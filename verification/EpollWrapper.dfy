/**
  The code of the wrapper around epoll_wait(), proved against the
  specification in module Epoll: it works in place on the application's event
  array and on the interest set of the epoll instance.
 */
module EpollWrapper {
  import opened Options
  import opened ShadowLists
  import opened Internals
  import opened Epoll
  import opened EpollBatch

  // ----- Whole calls -----

  /** One return of the kernel's wait. */
  datatype Kernel =
    | Failure(env: Env)
    | Batch(evs: seq<Event>, env: Env)

  /** The events of a return; none when it failed. */
  function EventsOf(k: Kernel): seq<Event> {
    if k.Batch? then k.evs else []
  }

  /** How a call ends, after `used` returns of the kernel; without a result it is still waiting. */
  datatype Outcome = Outcome(socks: seq<Sock>, evs: seq<Event>, interest: set<int>, result: Option<int>, used: nat)

  function Waited(socks: seq<Sock>, wakeup: int, interest: set<int>, forever: bool, rounds: seq<Kernel>): Outcome
    decreases rounds
  {
    var prepared := Prepare(socks, wakeup, interest);
    if rounds == [] then Outcome(socks, [], prepared, None, 0)
    else
      var a := AfterWait(socks, EventsOf(rounds[0]), wakeup, prepared, rounds[0].env);
      var result := if rounds[0].Failure? then -1 else |a.evs|;
      if result == 0 && forever then
        var o := Waited(a.socks, wakeup, a.interest, forever, rounds[1..]);
        o.(used := o.used + 1)
      else Outcome(a.socks, a.evs, a.interest, Some(result), 1)
  }

  /** From one return of the kernel to the wrapper's decision. */
  function Returned(socks: seq<Sock>, wakeup: int, interest: set<int>, k: Kernel): All {
    AfterWait(socks, EventsOf(k), wakeup, Prepare(socks, wakeup, interest), k.env)
  }

  /** The first wait of a call passes nothing on, and the call waits again. */
  predicate GoesOn(socks: seq<Sock>, wakeup: int, interest: set<int>, forever: bool, rounds: seq<Kernel>) {
    rounds != [] && rounds[0].Batch? && forever && Returned(socks, wakeup, interest, rounds[0]).evs == []
  }

  /** What the application does to its interest set before a call, and the call. */
  datatype Use = Use(removed: set<int>, added: set<int>, forever: bool, rounds: seq<Kernel>)

  function Outcomes(socks: seq<Sock>, wakeup: int, interest: set<int>, uses: seq<Use>): (os: seq<Outcome>)
    ensures |os| == |uses|
    decreases uses
  {
    if uses == [] then []
    else
      var u := uses[0];
      var o := Waited(socks, wakeup, interest - u.removed + u.added, u.forever, u.rounds);
      [o] + Outcomes(o.socks, wakeup, o.interest, uses[1..])
  }

  // ----- What the kernel guarantees of calls and runs -----

  /** No public descriptor is one of the library's own. */
  predicate PublicApart(socks: seq<Sock>, wakeup: int) {
    forall t :: 0 <= t < |socks| ==> Outside(socks, wakeup, socks[t].fd)
  }

  /** The public descriptors are open, and not what ready is owed on. */
  predicate PublicOpen(socks: seq<Sock>, open: set<int>) {
    && (forall t :: 0 <= t < |socks| ==> socks[t].fd in open)
    && (forall t, u :: 0 <= t < |socks| && 0 <= u < |socks| && socks[u].comfdClose > 0 ==>
          socks[t].fd != socks[u].comfdClose)
  }

  /**
    One return: the batch is a genuine one of descriptors in the interest set,
    whatever tokens the application stored there; and what is in the interest
    set is open, for a descriptor leaves it when it is closed.
   */
  ghost predicate HonestReturn(socks: seq<Sock>, wakeup: int, interest: set<int>, k: Kernel) {
    var prepared := Prepare(socks, wakeup, interest);
    && KernelBatch(socks, EventsOf(k), wakeup, prepared, k.env)
    && PublicOpen(socks, k.env.open) && interest <= k.env.open
    && forall i :: 0 <= i < |EventsOf(k)| ==> EventsOf(k)[i].source in prepared
  }

  ghost predicate HonestCall(socks: seq<Sock>, wakeup: int, interest: set<int>, forever: bool, rounds: seq<Kernel>)
    decreases rounds
  {
    rounds == [] || (
      && HonestReturn(socks, wakeup, interest, rounds[0])
      && var a := Returned(socks, wakeup, interest, rounds[0]);
         (GoesOn(socks, wakeup, interest, forever, rounds) ==>
            HonestCall(a.socks, wakeup, a.interest, forever, rounds[1..])))
  }

  /** A call begins when the one before it has returned. */
  ghost predicate HonestRun(socks: seq<Sock>, wakeup: int, interest: set<int>, uses: seq<Use>)
    decreases uses
  {
    uses == [] || (
      && var u := uses[0];
      && HonestCall(socks, wakeup, interest - u.removed + u.added, u.forever, u.rounds)
      && var o := Waited(socks, wakeup, interest - u.removed + u.added, u.forever, u.rounds);
         (|uses| > 1 ==> o.result.Some?) && HonestRun(o.socks, wakeup, o.interest, uses[1..]))
  }

  // ----- Readiness over whole runs -----

  lemma {:induction false} EventsSame(s: Sock, evs: seq<Event>, wakeup: int, interest: set<int>, env: Env)
    ensures SameSock(s, OnEvents(s, evs, wakeup, interest, env).sock)
    decreases evs
  {
    if evs != [] {
      var one := OnEvent(s, evs[0], wakeup, interest, env);
      EventsSame(one.sock, evs[1..], wakeup, one.interest, env);
    }
  }

  /** What handling does to the sockets, whatever the batch. */
  lemma {:induction false} AllSame(socks: seq<Sock>, evs: seq<Event>, wakeup: int, interest: set<int>, env: Env)
    ensures var after := HandleAll(socks, evs, wakeup, interest, env).socks;
      |after| == |socks| && forall t :: 0 <= t < |socks| ==> SameSock(socks[t], after[t])
    decreases socks
  {
    if socks != [] {
      var p := HandleBatch(socks[0], evs, wakeup, interest, env);
      EventsSame(Reported(socks[0]), evs, wakeup, interest, env);
      AllSame(socks[1..], p.evs, wakeup, p.interest, env);
    }
  }

  /** Handling leaves an event alone or overwrites its token. */
  predicate Masks(evs: seq<Event>, evs': seq<Event>) {
    |evs'| == |evs| && forall i :: 0 <= i < |evs| ==> evs'[i] == evs[i] || evs'[i].fd == HANDLED
  }

  lemma {:induction false} EventsMask(s: Sock, evs: seq<Event>, wakeup: int, interest: set<int>, env: Env)
    ensures Masks(evs, OnEvents(s, evs, wakeup, interest, env).evs)
    decreases evs
  {
    if evs != [] {
      var one := OnEvent(s, evs[0], wakeup, interest, env);
      EventsMask(one.sock, evs[1..], wakeup, one.interest, env);
    }
  }

  lemma {:induction false} AllMask(socks: seq<Sock>, evs: seq<Event>, wakeup: int, interest: set<int>, env: Env)
    ensures Masks(evs, HandleAll(socks, evs, wakeup, interest, env).evs)
    decreases socks
  {
    if socks != [] {
      var p := HandleBatch(socks[0], evs, wakeup, interest, env);
      EventsMask(Reported(socks[0]), evs, wakeup, interest, env);
      AllMask(socks[1..], p.evs, wakeup, p.interest, env);
    }
  }

  /** What is returned was in the kernel's batch. */
  lemma {:induction false} UnhandledFrom(evs: seq<Event>, evs': seq<Event>)
    requires Masks(evs, evs')
    ensures forall ev :: ev in Unhandled(evs') ==> ev in evs
    decreases evs
  {
    if evs != [] {
      UnhandledFrom(evs[1..], evs'[1..]);
    }
  }

  lemma {:induction false} NeverAdded(socks: seq<Sock>, wakeup: int, interest: set<int>, x: int)
    requires Outside(socks, wakeup, x)
    ensures x in Prepare(socks, wakeup, interest) ==> x in interest && !DroppedBySome(socks, x)
    decreases socks
  {
    if socks != [] {
      assert socks[0] in socks;
      ElemsIn(socks[0].comfds, x);
      NeverAdded(socks[1..], wakeup, interest + {wakeup} - Dropped(socks[0]) + Watched(socks[0]), x);
      if t :| 0 <= t < |socks| && x in Dropped(socks[t]) {
        if t > 0 {
          assert x in Dropped(socks[1..][t - 1]);
        }
      }
    }
  }

  /** A socket that is ready when a wait begins stays so, and no event of its public descriptor is passed on. */
  lemma ReturnKeepsReady(socks: seq<Sock>, wakeup: int, interest: set<int>, k: Kernel, t: nat)
    requires PublicApart(socks, wakeup) && HonestReturn(socks, wakeup, interest, k) && t < |socks| && socks[t].ready
    ensures var a := Returned(socks, wakeup, interest, k);
      && |a.socks| == |socks| && SameSock(socks[t], a.socks[t])
      && forall ev :: ev in a.evs ==> ev.source != socks[t].fd
  {
    var prepared, evs := Prepare(socks, wakeup, interest), EventsOf(k);
    AllSame(socks, evs, wakeup, prepared, k.env);
    NeverAdded(socks, wakeup, interest, socks[t].fd);
    assert socks[t].fd in Dropped(socks[t]);
    PassedFrom(socks, wakeup, interest, k);
  }

  lemma PassedFrom(socks: seq<Sock>, wakeup: int, interest: set<int>, k: Kernel)
    ensures forall ev :: ev in Returned(socks, wakeup, interest, k).evs ==> ev in EventsOf(k)
  {
    var prepared := Prepare(socks, wakeup, interest);
    AllMask(socks, EventsOf(k), wakeup, prepared, k.env);
    UnhandledFrom(EventsOf(k), HandleAll(socks, EventsOf(k), wakeup, prepared, k.env).evs);
  }

  /** What the next wait starts from. */
  lemma ReturnKeepsApart(socks: seq<Sock>, wakeup: int, interest: set<int>, k: Kernel)
    requires AllProper(socks, wakeup) && PublicApart(socks, wakeup) && HonestReturn(socks, wakeup, interest, k)
    ensures var a := Returned(socks, wakeup, interest, k);
      AllProper(a.socks, wakeup) && PublicApart(a.socks, wakeup)
  {
    var prepared, evs := Prepare(socks, wakeup, interest), EventsOf(k);
    var after := HandleAll(socks, evs, wakeup, prepared, k.env).socks;
    ProperAfter(socks, evs, wakeup, prepared, k.env);
    AllSame(socks, evs, wakeup, prepared, k.env);
    forall t | 0 <= t < |after| ensures Outside(after, wakeup, after[t].fd) {
      assert SameSock(socks[t], after[t]);
      OutsideAfter(socks, evs, wakeup, prepared, k.env, socks[t].fd);
    }
  }

  lemma {:induction false} CallKeepsApart(
      socks: seq<Sock>, wakeup: int, interest: set<int>, forever: bool, rounds: seq<Kernel>)
    requires AllProper(socks, wakeup) && PublicApart(socks, wakeup)
    requires HonestCall(socks, wakeup, interest, forever, rounds)
    ensures var o := Waited(socks, wakeup, interest, forever, rounds);
      AllProper(o.socks, wakeup) && PublicApart(o.socks, wakeup)
    decreases rounds
  {
    if rounds != [] {
      ReturnKeepsApart(socks, wakeup, interest, rounds[0]);
      if GoesOn(socks, wakeup, interest, forever, rounds) {
        var a := Returned(socks, wakeup, interest, rounds[0]);
        CallKeepsApart(a.socks, wakeup, a.interest, forever, rounds[1..]);
      }
    }
  }

  lemma {:induction false} CallKeepsReady(
      socks: seq<Sock>, wakeup: int, interest: set<int>, forever: bool, rounds: seq<Kernel>, t: nat)
    requires AllProper(socks, wakeup) && PublicApart(socks, wakeup)
    requires HonestCall(socks, wakeup, interest, forever, rounds) && t < |socks| && socks[t].ready
    ensures StaysOut(socks, Waited(socks, wakeup, interest, forever, rounds), t)
    decreases rounds
  {
    if rounds != [] {
      ReturnKeepsReady(socks, wakeup, interest, rounds[0], t);
      if GoesOn(socks, wakeup, interest, forever, rounds) {
        var a := Returned(socks, wakeup, interest, rounds[0]);
        ReturnKeepsApart(socks, wakeup, interest, rounds[0]);
        CallKeepsReady(a.socks, wakeup, a.interest, forever, rounds[1..], t);
      }
    }
  }

  /** At the end of a call socket t is what it was, and no event of its public descriptor was reported. */
  predicate StaysOut(socks: seq<Sock>, o: Outcome, t: nat)
    requires t < |socks|
  {
    && |o.socks| == |socks| && SameSock(socks[t], o.socks[t])
    && forall ev :: ev in o.evs ==> ev.source != socks[t].fd
  }

  /** The first call of a run. */
  function FirstOf(socks: seq<Sock>, wakeup: int, interest: set<int>, uses: seq<Use>): Outcome
    requires uses != []
  {
    Waited(socks, wakeup, interest - uses[0].removed + uses[0].added, uses[0].forever, uses[0].rounds)
  }

  lemma FirstCall(socks: seq<Sock>, wakeup: int, interest: set<int>, uses: seq<Use>, t: nat)
    requires AllProper(socks, wakeup) && PublicApart(socks, wakeup) && HonestRun(socks, wakeup, interest, uses)
    requires t < |socks| && socks[t].ready && uses != []
    ensures var o := FirstOf(socks, wakeup, interest, uses);
      && StaysOut(socks, o, t)
      && AllProper(o.socks, wakeup) && PublicApart(o.socks, wakeup) && HonestRun(o.socks, wakeup, o.interest, uses[1..])
  {
    var u, entry := uses[0], interest - uses[0].removed + uses[0].added;
    CallKeepsReady(socks, wakeup, entry, u.forever, u.rounds, t);
    CallKeepsApart(socks, wakeup, entry, u.forever, u.rounds);
  }

  lemma LaterCall(socks: seq<Sock>, wakeup: int, interest: set<int>, uses: seq<Use>, t: nat, k: nat)
    requires t < |socks| && socks[t].ready && 0 < k < |uses|
    requires var o := FirstOf(socks, wakeup, interest, uses);
      StaysOut(socks, o, t) && StaysOut(o.socks, Outcomes(o.socks, wakeup, o.interest, uses[1..])[k - 1], t)
    ensures StaysOut(socks, Outcomes(socks, wakeup, interest, uses)[k], t)
  {
    var o := FirstOf(socks, wakeup, interest, uses);
    assert Outcomes(socks, wakeup, interest, uses)[k] == Outcomes(o.socks, wakeup, o.interest, uses[1..])[k - 1];
  }

  /**
    Ready for good.  Over any run of calls, a socket that is ready stays so,
    and no later call reports an event of its public descriptor, whatever
    token it carries, and even if the application puts the descriptor back into
    the interest set in between.
   */
  lemma {:induction false} ReadyForGood(socks: seq<Sock>, wakeup: int, interest: set<int>, uses: seq<Use>, t: nat,
                                        k: nat)
    requires AllProper(socks, wakeup) && PublicApart(socks, wakeup) && HonestRun(socks, wakeup, interest, uses)
    requires t < |socks| && socks[t].ready && k < |uses|
    ensures StaysOut(socks, Outcomes(socks, wakeup, interest, uses)[k], t)
    decreases uses
  {
    FirstCall(socks, wakeup, interest, uses, t);
    if k > 0 {
      var o := FirstOf(socks, wakeup, interest, uses);
      ReadyForGood(o.socks, wakeup, o.interest, uses[1..], t, k - 1);
      LaterCall(socks, wakeup, interest, uses, t, k);
    }
  }

  // ----- Whole calls, as the application sees them -----

  /**
    Where a wait begins.  `user` are the descriptors of the interest set that
    are the application's, without those that the library took out.
   */
  datatype Begin = Begin(socks: seq<Sock>, interest: set<int>, user: set<int>)

  /** The library's descriptors all differ, the application's are others, and only these are in the interest set. */
  predicate BeginOk(b: Begin, wakeup: int) {
    AllProper(b.socks, wakeup) && Separate(b.socks, wakeup, b.user) && Fits(b.socks, b.interest, b.user)
  }

  /** The wait after one that ended in k. */
  function Next(b: Begin, wakeup: int, k: Kernel): Begin {
    var a := Returned(b.socks, wakeup, b.interest, k);
    Begin(a.socks, a.interest, b.user - Retired(b.socks))
  }

  /** Wait j of a call. */
  function Entry(b: Begin, wakeup: int, rounds: seq<Kernel>, j: nat): Begin
    requires j <= |rounds|
    decreases j
  {
    if j == 0 then b else Entry(Next(b, wakeup, rounds[0]), wakeup, rounds[1..], j - 1)
  }

  /** It holds exactly the descriptors in `user` and the latches of sockets that are not ready. */
  ghost predicate Exactly(socks: seq<Sock>, interest: set<int>, user: set<int>) {
    forall x :: x in interest <==> x in user || LatchOfWaiting(socks, x)
  }

  lemma ExactlyFits(socks: seq<Sock>, interest: set<int>, user: set<int>)
    requires Exactly(socks, interest, user)
    ensures Fits(socks, interest, user)
  {
    assert user <= interest by {
      forall y | y in user ensures y in interest {
      }
    }
    forall y | y in interest ensures y in user || exists t :: 0 <= t < |socks| && y == socks[t].readyfd {
      if LatchOfWaiting(socks, y) {
        var t :| 0 <= t < |socks| && y == socks[t].readyfd && !socks[t].ready;
      }
    }
  }

  lemma SeparateApart(socks: seq<Sock>, wakeup: int, user: set<int>)
    requires Separate(socks, wakeup, user)
    ensures PublicApart(socks, wakeup)
  {
  }

  /** The application's descriptors stay apart from the library's. */
  lemma ReturnKeepsSeparate(b: Begin, wakeup: int, k: Kernel)
    requires BeginOk(b, wakeup) && HonestReturn(b.socks, wakeup, b.interest, k)
    ensures Separate(Next(b, wakeup, k).socks, wakeup, Next(b, wakeup, k).user)
  {
    var prepared, after := Prepare(b.socks, wakeup, b.interest), Next(b, wakeup, k).socks;
    SeparateApart(b.socks, wakeup, b.user);
    ReturnKeepsApart(b.socks, wakeup, b.interest, k);
    ReportedAtOnce(b.socks, EventsOf(k), wakeup, prepared, k.env, 0);
    forall t, u | 0 <= t < |after| && 0 <= u < |after|
      ensures after[t].fd != wakeup && !IsInternal(after[u], after[t].fd)
    {
      assert Outside(after, wakeup, after[t].fd) && after[u] in after;
    }
    forall x, t | x in b.user && 0 <= t < |after| ensures !IsInternal(after[t], x) {
      OutsideAfter(b.socks, EventsOf(k), wakeup, prepared, k.env, x);
      assert after[t] in after;
    }
  }

  lemma ExactlyAfter(b: Begin, wakeup: int, k: Kernel)
    requires BeginOk(b, wakeup) && HonestReturn(b.socks, wakeup, b.interest, k)
    ensures var n := Next(b, wakeup, k); Exactly(n.socks, n.interest, n.user)
  {
    var n := Next(b, wakeup, k);
    forall x ensures x in n.interest <==> x in n.user || LatchOfWaiting(n.socks, x) {
      InterestAfterWait(b.socks, EventsOf(k), wakeup, b.interest, b.user, k.env, x);
    }
  }

  lemma RetiredKept(socks: seq<Sock>, evs: seq<Event>, wakeup: int, interest: set<int>, env: Env)
    ensures Retired(socks) <= Retired(AfterWait(socks, evs, wakeup, interest, env).socks)
  {
    var after := HandleAll(socks, evs, wakeup, interest, env).socks;
    AllSame(socks, evs, wakeup, interest, env);
    forall x | x in Retired(socks) ensures x in Retired(after) {
      var t :| 0 <= t < |socks| && socks[t].ready && socks[t].fd == x;
      assert SameSock(socks[t], after[t]);
      assert after[t] in after;
    }
  }

  /** One return: what is passed on, what is left in the interest set, and that the next wait starts as this one did. */
  lemma ReturnMeaning(b: Begin, wakeup: int, k: Kernel)
    requires BeginOk(b, wakeup) && HonestReturn(b.socks, wakeup, b.interest, k)
    ensures var n := Next(b, wakeup, k);
      && Returned(b.socks, wakeup, b.interest, k).evs == Visible(b.socks, EventsOf(k), wakeup, 0)
      && Exactly(n.socks, n.interest, n.user)
      && BeginOk(n, wakeup) && Retired(b.socks) <= Retired(n.socks)
  {
    var prepared, n := Prepare(b.socks, wakeup, b.interest), Next(b, wakeup, k);
    Transparency(b.socks, EventsOf(k), wakeup, prepared, k.env);
    ExactlyAfter(b, wakeup, k);
    ExactlyFits(n.socks, n.interest, n.user);
    ProperAfter(b.socks, EventsOf(k), wakeup, prepared, k.env);
    ReturnKeepsSeparate(b, wakeup, k);
    RetiredKept(b.socks, EventsOf(k), wakeup, prepared, k.env);
  }

  /** Wait j of the call passed nothing on. */
  predicate OnlyInternal(b: Begin, wakeup: int, rounds: seq<Kernel>, j: nat)
    requires j < |rounds|
  {
    rounds[j].Batch? && Visible(Entry(b, wakeup, rounds, j).socks, rounds[j].evs, wakeup, 0) == []
  }

  /** The outcome is that of wait n, which passes on the kernel's batch without the internal events. */
  predicate PassedOn(b: Begin, wakeup: int, rounds: seq<Kernel>, n: nat, o: Outcome)
    requires n < |rounds|
  {
    && o.evs == Visible(Entry(b, wakeup, rounds, n).socks, EventsOf(rounds[n]), wakeup, 0)
    && o.result == Some(if rounds[n].Failure? then -1 else |o.evs|)
  }

  function CallOf(b: Begin, wakeup: int, forever: bool, rounds: seq<Kernel>): Outcome {
    Waited(b.socks, wakeup, b.interest, forever, rounds)
  }

  predicate Repeats(b: Begin, wakeup: int, forever: bool, rounds: seq<Kernel>) {
    GoesOn(b.socks, wakeup, b.interest, forever, rounds)
  }

  ghost predicate HonestFrom(b: Begin, wakeup: int, forever: bool, rounds: seq<Kernel>) {
    HonestCall(b.socks, wakeup, b.interest, forever, rounds)
  }

  /** What a call returns, and that the waits before the last passed nothing on. */
  predicate Refined(b: Begin, wakeup: int, forever: bool, rounds: seq<Kernel>) {
    var o := CallOf(b, wakeup, forever, rounds);
    && 0 < o.used <= |rounds|
    && PassedOn(b, wakeup, rounds, o.used - 1, o)
    && (forever ==> o.result != Some(0))
    && forall j :: 0 <= j < o.used - 1 ==> OnlyInternal(b, wakeup, rounds, j)
  }

  /** Wait j of a call is wait j - 1 of what follows its first wait. */
  lemma EntryLater(b: Begin, wakeup: int, rounds: seq<Kernel>, j: nat)
    requires 0 < j < |rounds|
    ensures rounds[j] == rounds[1..][j - 1]
    ensures Entry(b, wakeup, rounds, j) == Entry(Next(b, wakeup, rounds[0]), wakeup, rounds[1..], j - 1)
  {
  }

  lemma WaitedLater(b: Begin, wakeup: int, forever: bool, rounds: seq<Kernel>)
    requires Repeats(b, wakeup, forever, rounds)
    ensures var o := CallOf(Next(b, wakeup, rounds[0]), wakeup, forever, rounds[1..]);
      CallOf(b, wakeup, forever, rounds) == o.(used := o.used + 1)
  {
  }

  lemma InternalLater(b: Begin, wakeup: int, rounds: seq<Kernel>, n: nat)
    requires n < |rounds| && OnlyInternal(b, wakeup, rounds, 0)
    requires forall j :: 0 <= j < n ==> OnlyInternal(Next(b, wakeup, rounds[0]), wakeup, rounds[1..], j)
    ensures forall j :: 0 <= j <= n ==> OnlyInternal(b, wakeup, rounds, j)
  {
    forall j | 0 < j <= n ensures OnlyInternal(b, wakeup, rounds, j) {
      EntryLater(b, wakeup, rounds, j);
      assert OnlyInternal(Next(b, wakeup, rounds[0]), wakeup, rounds[1..], j - 1);
    }
  }

  lemma RefinedLater(b: Begin, wakeup: int, forever: bool, rounds: seq<Kernel>)
    requires Repeats(b, wakeup, forever, rounds) && OnlyInternal(b, wakeup, rounds, 0)
    requires Refined(Next(b, wakeup, rounds[0]), wakeup, forever, rounds[1..])
    ensures Refined(b, wakeup, forever, rounds)
  {
    var o := CallOf(Next(b, wakeup, rounds[0]), wakeup, forever, rounds[1..]);
    WaitedLater(b, wakeup, forever, rounds);
    EntryLater(b, wakeup, rounds, o.used);
    InternalLater(b, wakeup, rounds, o.used - 1);
  }

  /**
    The wrapper refines epoll_wait().  A call returns the kernel's last batch,
    in order, without the events that the library handles, and their number,
    which is not 0 when the call has no timeout.  The batches before it held
    no event of the application, so that none is lost by waiting again.
   */
  lemma {:induction false} EpollRefines(b: Begin, wakeup: int, forever: bool, rounds: seq<Kernel>)
    requires BeginOk(b, wakeup) && HonestFrom(b, wakeup, forever, rounds)
    requires CallOf(b, wakeup, forever, rounds).result.Some?
    ensures Refined(b, wakeup, forever, rounds)
    decreases rounds
  {
    ReturnMeaning(b, wakeup, rounds[0]);
    if Repeats(b, wakeup, forever, rounds) {
      WaitedLater(b, wakeup, forever, rounds);
      EpollRefines(Next(b, wakeup, rounds[0]), wakeup, forever, rounds[1..]);
      RefinedLater(b, wakeup, forever, rounds);
    }
  }

  /** The last wait of a call. */
  function Last(b: Begin, wakeup: int, forever: bool, rounds: seq<Kernel>): Begin
    decreases rounds
  {
    if Repeats(b, wakeup, forever, rounds) then Last(Next(b, wakeup, rounds[0]), wakeup, forever, rounds[1..]) else b
  }

  /** What the next call begins with, unless the application changes it. */
  function After(b: Begin, wakeup: int, forever: bool, rounds: seq<Kernel>): Begin {
    var o, last := CallOf(b, wakeup, forever, rounds), Last(b, wakeup, forever, rounds);
    Begin(o.socks, o.interest, b.user - Retired(last.socks))
  }

  lemma {:induction false} LastRetires(b: Begin, wakeup: int, forever: bool, rounds: seq<Kernel>)
    ensures Retired(b.socks) <= Retired(Last(b, wakeup, forever, rounds).socks)
    decreases rounds
  {
    if Repeats(b, wakeup, forever, rounds) {
      RetiredKept(b.socks, EventsOf(rounds[0]), wakeup, Prepare(b.socks, wakeup, b.interest), rounds[0].env);
      LastRetires(Next(b, wakeup, rounds[0]), wakeup, forever, rounds[1..]);
    }
  }

  lemma AfterLater(b: Begin, wakeup: int, forever: bool, rounds: seq<Kernel>)
    requires Repeats(b, wakeup, forever, rounds)
    ensures After(b, wakeup, forever, rounds) == After(Next(b, wakeup, rounds[0]), wakeup, forever, rounds[1..])
  {
    var n := Next(b, wakeup, rounds[0]);
    WaitedLater(b, wakeup, forever, rounds);
    RetiredKept(b.socks, EventsOf(rounds[0]), wakeup, Prepare(b.socks, wakeup, b.interest), rounds[0].env);
    LastRetires(n, wakeup, forever, rounds[1..]);
    var last := Retired(Last(n, wakeup, forever, rounds[1..]).socks);
    assert b.user - Retired(b.socks) - last == b.user - last;
  }

  /**
    The interest set after a whole call: the application's descriptors but the
    public ones of sockets that were ready at the last wait, and exactly the
    latches of the sockets still not ready.  And the library's descriptors are
    all different again, and none of the application's, so the next call
    begins as this one did.
   */
  lemma {:induction false} InterestAfterCall(b: Begin, wakeup: int, forever: bool, rounds: seq<Kernel>)
    requires BeginOk(b, wakeup) && HonestFrom(b, wakeup, forever, rounds)
    requires CallOf(b, wakeup, forever, rounds).result.Some?
    ensures var n := After(b, wakeup, forever, rounds); BeginOk(n, wakeup) && Exactly(n.socks, n.interest, n.user)
    decreases rounds
  {
    ReturnMeaning(b, wakeup, rounds[0]);
    if Repeats(b, wakeup, forever, rounds) {
      WaitedLater(b, wakeup, forever, rounds);
      InterestAfterCall(Next(b, wakeup, rounds[0]), wakeup, forever, rounds[1..]);
      AfterLater(b, wakeup, forever, rounds);
    }
  }

  /** A wait begins so, and ends in a genuine batch. */
  ghost predicate WaitOk(e: Begin, wakeup: int, k: Kernel) {
    BeginOk(e, wakeup) && HonestReturn(e.socks, wakeup, e.interest, k)
  }

  lemma FirstHonest(b: Begin, wakeup: int, forever: bool, rounds: seq<Kernel>)
    requires HonestFrom(b, wakeup, forever, rounds) && rounds != []
    ensures HonestReturn(b.socks, wakeup, b.interest, rounds[0])
    ensures Repeats(b, wakeup, forever, rounds) ==> HonestFrom(Next(b, wakeup, rounds[0]), wakeup, forever, rounds[1..])
  {
  }

  /** The call makes wait j: all waits before it passed nothing on. */
  predicate Makes(b: Begin, wakeup: int, forever: bool, rounds: seq<Kernel>, j: nat)
    decreases j
  {
    if j == 0 then rounds != []
    else Repeats(b, wakeup, forever, rounds) && Makes(Next(b, wakeup, rounds[0]), wakeup, forever, rounds[1..], j - 1)
  }

  lemma {:induction false} UsedMakes(b: Begin, wakeup: int, forever: bool, rounds: seq<Kernel>, j: nat)
    requires j < CallOf(b, wakeup, forever, rounds).used
    ensures j < |rounds| && Makes(b, wakeup, forever, rounds, j)
    decreases j
  {
    if j > 0 {
      if Repeats(b, wakeup, forever, rounds) {
        WaitedLater(b, wakeup, forever, rounds);
        UsedMakes(Next(b, wakeup, rounds[0]), wakeup, forever, rounds[1..], j - 1);
      }
    }
  }

  /** What holds of the first wait, and of a wait after one that passed nothing on, holds of every wait. */
  lemma {:induction false} Along(ok: (Begin, seq<Kernel>) -> bool, b: Begin, wakeup: int, forever: bool,
                                 rounds: seq<Kernel>, j: nat)
    requires j <= |rounds| && Makes(b, wakeup, forever, rounds, j) && ok(b, rounds)
    requires forall c: Begin, r: seq<Kernel> {:trigger Repeats(c, wakeup, forever, r)} ::
      ok(c, r) && Repeats(c, wakeup, forever, r) ==> ok(Next(c, wakeup, r[0]), r[1..])
    ensures ok(Entry(b, wakeup, rounds, j), rounds[j..])
    decreases j
  {
    if j == 0 {
      assert rounds[0..] == rounds;
    } else {
      assert rounds[1..][j - 1..] == rounds[j..];
      Along(ok, Next(b, wakeup, rounds[0]), wakeup, forever, rounds[1..], j - 1);
    }
  }

  lemma EntryOk(b: Begin, wakeup: int, forever: bool, rounds: seq<Kernel>, j: nat)
    requires BeginOk(b, wakeup) && HonestFrom(b, wakeup, forever, rounds)
    requires j < |rounds| && Makes(b, wakeup, forever, rounds, j)
    ensures WaitOk(Entry(b, wakeup, rounds, j), wakeup, rounds[j])
  {
    var ok := (c: Begin, r: seq<Kernel>) => BeginOk(c, wakeup) && HonestFrom(c, wakeup, forever, r);
    forall c: Begin, r: seq<Kernel> | ok(c, r) && Repeats(c, wakeup, forever, r)
      ensures ok(Next(c, wakeup, r[0]), r[1..])
    {
      FirstHonest(c, wakeup, forever, r);
      ReturnMeaning(c, wakeup, r[0]);
    }
    Along(ok, b, wakeup, forever, rounds, j);
    FirstHonest(Entry(b, wakeup, rounds, j), wakeup, forever, rounds[j..]);
  }

  // ----- Whole runs, as the application sees them -----

  /** What the application did before a call. */
  function Changed(b: Begin, u: Use): Begin {
    b.(interest := b.interest - u.removed + u.added, user := b.user - u.removed + u.added)
  }

  /** Call k of a run. */
  function BeginOf(b: Begin, wakeup: int, uses: seq<Use>, k: nat): Begin
    requires k < |uses|
    decreases k
  {
    var e := Changed(b, uses[0]);
    if k == 0 then e else BeginOf(After(e, wakeup, uses[0].forever, uses[0].rounds), wakeup, uses[1..], k - 1)
  }

  /** The application puts only descriptors of its own into the interest set. */
  predicate AddsOwn(b: Begin, wakeup: int, uses: seq<Use>)
    decreases uses
  {
    uses == [] || (
      && (forall x :: x in uses[0].added ==> Outside(b.socks, wakeup, x))
      && (forall x, t :: x in uses[0].added && 0 <= t < |b.socks| && b.socks[t].comfdClose > 0 ==>
            x != b.socks[t].comfdClose)
      && AddsOwn(After(Changed(b, uses[0]), wakeup, uses[0].forever, uses[0].rounds), wakeup, uses[1..]))
  }

  lemma ChangedOk(b: Begin, wakeup: int, uses: seq<Use>)
    requires BeginOk(b, wakeup) && uses != [] && AddsOwn(b, wakeup, uses)
    ensures BeginOk(Changed(b, uses[0]), wakeup)
  {
  }

  /** The call returned what it should, and left what it should. */
  ghost predicate CallRight(b: Begin, wakeup: int, u: Use, o: Outcome) {
    && BeginOk(b, wakeup) && HonestFrom(b, wakeup, u.forever, u.rounds)
    && o == CallOf(b, wakeup, u.forever, u.rounds)
    && (o.result.Some? ==>
          && Refined(b, wakeup, u.forever, u.rounds)
          && var n := After(b, wakeup, u.forever, u.rounds); Exactly(n.socks, n.interest, n.user))
  }

  lemma OneCallRight(b: Begin, wakeup: int, u: Use)
    requires BeginOk(b, wakeup) && HonestFrom(b, wakeup, u.forever, u.rounds)
    ensures CallRight(b, wakeup, u, CallOf(b, wakeup, u.forever, u.rounds))
  {
    if CallOf(b, wakeup, u.forever, u.rounds).result.Some? {
      EpollRefines(b, wakeup, u.forever, u.rounds);
      InterestAfterCall(b, wakeup, u.forever, u.rounds);
    }
  }

  /**
    Over any run of calls, in which the application adds and removes whatever
    descriptors of its own, each call returns the kernel's last batch without
    the internal events, has skipped no event of the application, and leaves
    in the interest set exactly what the application has put there, but the
    public descriptors of sockets that were ready, and the latches of the
    sockets still not ready.
   */
  lemma {:induction false} RunRefines(b: Begin, wakeup: int, uses: seq<Use>, k: nat)
    requires BeginOk(b, wakeup) && HonestRun(b.socks, wakeup, b.interest, uses) && AddsOwn(b, wakeup, uses)
    requires k < |uses|
    ensures CallRight(BeginOf(b, wakeup, uses, k), wakeup, uses[k], Outcomes(b.socks, wakeup, b.interest, uses)[k])
    decreases uses
  {
    var e, u := Changed(b, uses[0]), uses[0];
    ChangedOk(b, wakeup, uses);
    if k == 0 {
      OneCallRight(e, wakeup, u);
    } else {
      var n := After(e, wakeup, u.forever, u.rounds);
      InterestAfterCall(e, wakeup, u.forever, u.rounds);
      RunRefines(n, wakeup, uses[1..], k - 1);
      assert Outcomes(b.socks, wakeup, b.interest, uses)[k] == Outcomes(n.socks, wakeup, n.interest, uses[1..])[k - 1];
    }
  }

  /**
    And in each batch of each call, handled or skipped, every internal
    connection with an event is read once and answered in full or closed once,
    no other one is touched, and the lists are kept accordingly.
   */
  lemma EveryBatch(b: Begin, wakeup: int, uses: seq<Use>, k: nat, j: nat, x: int)
    requires BeginOk(b, wakeup) && HonestRun(b.socks, wakeup, b.interest, uses) && AddsOwn(b, wakeup, uses)
    requires k < |uses| && j < Outcomes(b.socks, wakeup, b.interest, uses)[k].used
    ensures j < |uses[k].rounds|
    ensures var round := uses[k].rounds[j]; var e := Entry(BeginOf(b, wakeup, uses, k), wakeup, uses[k].rounds, j);
      && AllProper(e.socks, wakeup)
      && ((forall t :: 0 <= t < |e.socks| ==> e.socks[t].comfdClose != x) ==>
            var h := HandleAll(e.socks, EventsOf(round), wakeup, Prepare(e.socks, wakeup, e.interest), round.env);
            BatchServed(e.socks, h, EventsOf(round), round.env, x))
  {
    RunRefines(b, wakeup, uses, k);
    var c := BeginOf(b, wakeup, uses, k);
    UsedMakes(c, wakeup, uses[k].forever, uses[k].rounds, j);
    var round := uses[k].rounds[j];
    EntryOk(c, wakeup, uses[k].forever, uses[k].rounds, j);
    var e := Entry(c, wakeup, uses[k].rounds, j);
    if forall t :: 0 <= t < |e.socks| ==> e.socks[t].comfdClose != x {
      BatchConnections(e.socks, EventsOf(round), wakeup, Prepare(e.socks, wakeup, e.interest), round.env, x);
    }
  }

  // ----- The error of a failed wait -----

  /** The descriptors that are deleted after a wait, in order, behind the wakeup descriptor. */
  function Deletions(socks: seq<Sock>): seq<int> {
    if socks == [] then [] else [socks[0].comfd] + socks[0].comfds + Deletions(socks[1..])
  }

  /** No deletion fails: each finds its descriptor in the interest set. */
  predicate AllFound(interest: set<int>, fds: seq<int>)
    decreases fds
  {
    fds == [] || (fds[0] in interest && AllFound(interest - {fds[0]}, fds[1..]))
  }

  /**
    errno is still the kernel's when a failed wait returns: none of the calls
    made in between fails, which are the reports and the deletions.
   */
  predicate ErrnoKept(socks: seq<Sock>, wakeup: int, prepared: set<int>, env: Env) {
    var h := HandleAll(socks, [], wakeup, prepared, env);
    && (forall t :: 0 <= t < |socks| && socks[t].comfdClose > 0 ==> env.sent(socks[t].comfdClose))
    && AllFound(h.interest, [wakeup] + Deletions(h.socks))
  }

  lemma {:induction false} FoundConcat(interest: set<int>, xs: seq<int>, ys: seq<int>)
    ensures AllFound(interest, xs + ys) <==> AllFound(interest, xs) && AllFound(interest - Elems(xs), ys)
    decreases xs
  {
    if xs == [] {
      assert xs + ys == ys && interest - Elems(xs) == interest;
    } else {
      assert (xs + ys)[1..] == xs[1..] + ys && (xs + ys)[0] == xs[0];
      FoundConcat(interest - {xs[0]}, xs[1..], ys);
      assert interest - {xs[0]} - Elems(xs[1..]) == interest - Elems(xs);
    }
  }

  lemma {:induction false} FoundDistinct(interest: set<int>, fds: seq<int>)
    requires Distinct(fds) && forall i :: 0 <= i < |fds| ==> fds[i] in interest
    ensures AllFound(interest, fds)
    decreases fds
  {
    if fds != [] {
      FoundDistinct(interest - {fds[0]}, fds[1..]);
    }
  }

  /** The deletions are those of the clean-up in module Epoll. */
  lemma {:induction false} DeletionsCleanUp(socks: seq<Sock>, interest: set<int>)
    ensures Cleanup(socks, interest) == interest - Elems(Deletions(socks))
    decreases socks
  {
    if socks != [] {
      var own := [socks[0].comfd] + socks[0].comfds;
      ElemsConcat(own, Deletions(socks[1..]));
      ElemsConcat([socks[0].comfd], socks[0].comfds);
      assert Elems([socks[0].comfd]) == {socks[0].comfd};
      DeletionsCleanUp(socks[1..], interest - {socks[0].comfd} - Elems(socks[0].comfds));
    }
  }

  lemma {:induction false} FoundIff(socks: seq<Sock>, interest: set<int>)
    requires AllSound(socks) && Watching(socks, interest)
    ensures AllFound(interest, Deletions(socks)) <==> forall t :: 0 <= t < |socks| ==> !socks[t].ready
    decreases socks
  {
    if socks != [] {
      var s, rest, own := socks[0], socks[1..], [socks[0].comfd] + socks[0].comfds;
      assert Sound(s) && forall t :: 0 <= t < |rest| ==> rest[t] == socks[t + 1];
      FoundConcat(interest, own, Deletions(rest));
      if s.ready {
        assert own[0] == s.comfd;
      } else {
        FoundDistinct(interest, own);
        OthersWatching(socks, interest);
        FoundIff(rest, interest - Elems(own));
      }
    }
  }

  lemma OthersWatching(socks: seq<Sock>, interest: set<int>)
    requires socks != [] && AllSound(socks) && Watching(socks, interest)
    ensures AllSound(socks[1..]) && Watching(socks[1..], interest - Elems([socks[0].comfd] + socks[0].comfds))
  {
    var rest, own := socks[1..], [socks[0].comfd] + socks[0].comfds;
    forall t, u | 0 <= t < u < |rest| ensures Disjoint(rest[t], rest[u]) {
      assert Disjoint(socks[t + 1], socks[u + 1]);
    }
    forall t | 0 <= t < |rest| ensures Sound(rest[t]) {
      assert Sound(socks[t + 1]);
    }
    forall t, c | 0 <= t < |rest| && IsInternal(rest[t], c) ensures c !in Elems(own) {
      assert Disjoint(socks[0], socks[t + 1]);
      ElemsIn(own, c);
    }
    forall t | 0 <= t < |rest|
      ensures rest[t].comfd in interest - Elems(own) <==> !rest[t].ready
      ensures forall i :: 0 <= i < |rest[t].comfds| ==> rest[t].comfds[i] in interest - Elems(own)
    {
      assert IsInternal(rest[t], rest[t].comfd) && rest[t] == socks[t + 1];
      assert forall i :: 0 <= i < |rest[t].comfds| ==> IsInternal(rest[t], rest[t].comfds[i]);
    }
  }

  /** Without events, handling only reports. */
  lemma {:induction false} NoEvents(socks: seq<Sock>, wakeup: int, interest: set<int>, env: Env)
    ensures var h := HandleAll(socks, [], wakeup, interest, env);
      && h.interest == interest && |h.socks| == |socks|
      && forall t :: 0 <= t < |socks| ==> h.socks[t] == Reported(socks[t])
    decreases socks
  {
    if socks != [] {
      NoEvents(socks[1..], wakeup, interest, env);
    }
  }

  lemma ReportedSound(socks: seq<Sock>, after: seq<Sock>)
    requires AllSound(socks) && |after| == |socks| && forall t :: 0 <= t < |socks| ==> after[t] == Reported(socks[t])
    ensures AllSound(after)
  {
    forall t | 0 <= t < |after| ensures Sound(after[t]) {
      assert Sound(socks[t]);
    }
    forall t, u | 0 <= t < u < |after| ensures Disjoint(after[t], after[u]) {
      assert Disjoint(socks[t], socks[u]);
    }
  }

  /**
    The application sees the kernel's errno after a failed wait if and only if
    the process has bound sockets, none of them is ready, and each report that
    was owed could be sent.
   */
  lemma ErrnoSurvivesIff(socks: seq<Sock>, wakeup: int, interest: set<int>, user: set<int>, env: Env)
    requires AllProper(socks, wakeup) && Separate(socks, wakeup, user) && Fits(socks, interest, user)
    ensures ErrnoKept(socks, wakeup, Prepare(socks, wakeup, interest), env) <==>
      && socks != []
      && (forall t :: 0 <= t < |socks| ==> !socks[t].ready)
      && (forall t :: 0 <= t < |socks| && socks[t].comfdClose > 0 ==> env.sent(socks[t].comfdClose))
  {
    var prepared := Prepare(socks, wakeup, interest);
    NoEvents(socks, wakeup, prepared, env);
    WakeupWatched(socks, wakeup, interest, user);
    DeletionsFound(socks, wakeup, interest, user, HandleAll(socks, [], wakeup, prepared, env).socks);
  }

  /** One ready socket: the failure of the deletion of its listener hides the kernel's errno. */
  lemma ErrnoLost() returns (socks: seq<Sock>, env: Env)
    ensures |socks| == 1 && socks[0].ready && AllProper(socks, 7) && Separate(socks, 7, {}) && Fits(socks, {}, {})
    ensures !ErrnoKept(socks, 7, Prepare(socks, 7, {}), env)
  {
    socks, env := [Sock(3, 80, [], 4, -1, 5, 6, true)], Env(_ => -1, _ => Again, _ => true, {3, 4, 5, 6, 7});
    ErrnoSurvivesIff(socks, 7, {}, {}, env);
  }

  lemma DeletionsFound(socks: seq<Sock>, wakeup: int, interest: set<int>, user: set<int>, after: seq<Sock>)
    requires AllProper(socks, wakeup) && Separate(socks, wakeup, user) && Fits(socks, interest, user)
    requires |after| == |socks| && forall t :: 0 <= t < |socks| ==> after[t] == Reported(socks[t])
    ensures var prepared := Prepare(socks, wakeup, interest);
      AllFound(prepared, [wakeup] + Deletions(after)) <==>
      wakeup in prepared && forall t :: 0 <= t < |socks| ==> !socks[t].ready
  {
    var prepared := Prepare(socks, wakeup, interest);
    FoundConcat(prepared, [wakeup], Deletions(after));
    assert [wakeup][1..] == [] && Elems([wakeup]) == {wakeup};
    ProperSound(socks, wakeup);
    ReportedSound(socks, after);
    InternalWatched(socks, wakeup, interest, user);
    FoundIff(after, prepared - {wakeup});
  }

  lemma ProperSound(socks: seq<Sock>, wakeup: int)
    requires AllProper(socks, wakeup)
    ensures AllSound(socks)
  {
    forall t | 0 <= t < |socks| ensures Sound(socks[t]) {
      assert Proper(socks[t], wakeup);
    }
  }

  // ----- Compaction -----

  /** The inner loop: moves the events after i one place to the front. */
  method ShiftLeft(events: array<Event>, i: nat, nfds: nat)
    requires i < nfds <= events.Length
    modifies events
    ensures events[..nfds - 1] == Cut(old(events[..nfds]), i)
    ensures forall k :: nfds <= k < events.Length ==> events[k] == old(events[k])
  {
    var j := i;
    while j < nfds - 1
      invariant i <= j <= nfds - 1
      invariant forall k :: 0 <= k < events.Length ==>
        events[k] == if i <= k < j then old(events[k + 1]) else old(events[k])
    {
      events[j] := events[j + 1];
      j := j + 1;
    }
  }

  /** dsu_epoll_correct_events: the events that were not overwritten, in order, to the front. */
  method CorrectEvents(nfds: int, events: array<Event>) returns (left: int)
    requires nfds <= events.Length
    modifies events
    ensures nfds < 0 ==> left == nfds
    ensures nfds >= 0 ==> 0 <= left <= nfds && events[..left] == Unhandled(old(events[..nfds]))
    ensures forall k :: nfds <= k && 0 <= k < events.Length ==> events[k] == old(events[k])
  {
    left := nfds;
    ghost var kept, rest := [], Filled(events, nfds);
    var i := 0;
    while i < left
      invariant left <= nfds && (nfds < 0 ==> left == nfds) && i == |kept| && (nfds >= 0 ==> left == i + |rest|)
      invariant Filled(events, left) == kept + rest
      invariant kept + Unhandled(rest) == Unhandled(old(Filled(events, nfds)))
      invariant forall k :: nfds <= k && 0 <= k < events.Length ==> events[k] == old(events[k])
      decreases left - i
    {
      UnhandledStep(kept, rest);
      NextRest(kept, rest);
      assert events[i] == Filled(events, left)[i];
      if events[i].fd == HANDLED {
        ShiftLeft(events, i, left);
        left := left - 1;
      } else {
        kept := kept + [rest[0]];
        i := i + 1;
      }
      rest := rest[1..];
    }
  }

  /** The first of the events still to look at is kept or left out. */
  lemma UnhandledStep(kept: seq<Event>, rest: seq<Event>)
    requires rest != []
    ensures kept + Unhandled(rest) == (if rest[0].fd == HANDLED then kept else kept + [rest[0]]) + Unhandled(rest[1..])
  {
    var tail := Unhandled(rest[1..]);
    if rest[0].fd == HANDLED {
      assert Unhandled(rest) == [] + tail == tail;
    } else {
      assert Unhandled(rest) == [rest[0]] + tail;
      Assoc(kept, [rest[0]], tail);
    }
  }

  lemma NextRest(kept: seq<Event>, rest: seq<Event>)
    requires rest != []
    ensures (kept + rest)[|kept|] == rest[0] && Cut(kept + rest, |kept|) == kept + rest[1..]
    ensures kept + rest == (kept + [rest[0]]) + rest[1..]
  {
    CutConcat(kept, rest);
  }

  // ----- One socket -----

  /** A batch so far, and the rest of it. */
  function JoinPass(done: Pass, rest: Pass): Pass {
    Pass(rest.sock, done.evs + rest.evs, rest.interest, done.calls + rest.calls)
  }

  lemma JoinEvent(s: Sock, done: seq<Event>, evs: seq<Event>, i: nat, calls: seq<Call>, wakeup: int,
                  interest: set<int>, env: Env)
    requires i < |evs|
    ensures var one := OnEvent(s, evs[i], wakeup, interest, env);
      JoinPass(Pass(s, done, interest, calls), OnEvents(s, evs[i..], wakeup, interest, env)) ==
      JoinPass(Pass(one.sock, done + [one.ev], one.interest, calls + one.calls),
               OnEvents(one.sock, evs[i + 1..], wakeup, one.interest, env))
  {
    assert evs[i..][0] == evs[i] && evs[i..][1..] == evs[i + 1..];
    var one := OnEvent(s, evs[i], wakeup, interest, env);
    var rest := OnEvents(one.sock, evs[i + 1..], wakeup, one.interest, env);
    Assoc(done, [one.ev], rest.evs);
    Assoc(calls, one.calls, rest.calls);
  }

  lemma {:induction false} WithoutCut(list: seq<int>, k: nat)
    requires k < |list| && forall j :: 0 <= j < k ==> list[j] != list[k]
    ensures Without(list, list[k]) == list[..k] + list[k + 1..]
  {
    if k > 0 {
      var tail := list[1..];
      WithoutCut(tail, k - 1);
      assert list[..k] == [list[0]] + tail[..k - 1] && list[k + 1..] == tail[k..];
      Assoc([list[0]], tail[..k - 1], tail[k..]);
    }
  }

  /** What is removed by descriptor is the first node of the linked list with it. */
  lemma WithoutAt(list: seq<int>, k: nat)
    requires k < |list| && forall j :: 0 <= j < k ==> list[j] != list[k]
    ensures Without(list, list[k]) == Cut(list, k) && Find(list, Identity, list[k]) == k
  {
    WithoutCut(list, k);
    FindFirst(list, Identity, list[k], k);
  }

  /** A pass over the sockets so far, and the rest of it. */
  function JoinAll(done: seq<Sock>, calls: seq<Call>, rest: All): All {
    All(done + rest.socks, rest.evs, rest.interest, calls + rest.calls)
  }

  lemma JoinBatch(done: seq<Sock>, calls: seq<Call>, socks: seq<Sock>, i: nat, evs: seq<Event>, wakeup: int,
                  interest: set<int>, env: Env)
    requires i < |socks|
    ensures var p := HandleBatch(socks[i], evs, wakeup, interest, env);
      JoinAll(done, calls, HandleAll(socks[i..], evs, wakeup, interest, env)) ==
      JoinAll(done + [p.sock], calls + p.calls, HandleAll(socks[i + 1..], p.evs, wakeup, p.interest, env))
  {
    assert socks[i..][0] == socks[i] && socks[i..][1..] == socks[i + 1..];
    var p := HandleBatch(socks[i], evs, wakeup, interest, env);
    var rest := HandleAll(socks[i + 1..], p.evs, wakeup, p.interest, env);
    Assoc(done, [p.sock], rest.socks);
    Assoc(calls, p.calls, rest.calls);
  }

  lemma {:induction false} EventsLength(s: Sock, evs: seq<Event>, wakeup: int, interest: set<int>, env: Env)
    ensures |OnEvents(s, evs, wakeup, interest, env).evs| == |evs|
    decreases evs
  {
    if evs != [] {
      var one := OnEvent(s, evs[0], wakeup, interest, env);
      EventsLength(one.sock, evs[1..], wakeup, one.interest, env);
    }
  }

  lemma {:induction false} AllLength(socks: seq<Sock>, evs: seq<Event>, wakeup: int, interest: set<int>, env: Env)
    ensures |HandleAll(socks, evs, wakeup, interest, env).evs| == |evs|
    decreases socks
  {
    if socks != [] {
      var p := HandleBatch(socks[0], evs, wakeup, interest, env);
      EventsLength(Reported(socks[0]), evs, wakeup, interest, env);
      AllLength(socks[1..], p.evs, wakeup, p.interest, env);
    }
  }

  /** The part of an event array that a return of n events fills. */
  function Filled(events: array<Event>, nfds: int): seq<Event>
    requires nfds <= events.Length
    reads events
  {
    if nfds < 0 then [] else events[..nfds]
  }

  class Wrapper {
    const wakeup: int
    var binds: seq<Sock>
    var interest: set<int>

    constructor (wakeup: int, binds: seq<Sock>)
      ensures this.wakeup == wakeup && this.binds == binds && interest == {}
    {
      this.wakeup := wakeup;
      this.binds := binds;
      interest := {};
    }

    /** dsu_epoll_internal_conn. */
    method InternalConn(s: Sock)
      modifies `interest
      ensures interest == old(interest) + {wakeup} - Dropped(s) + Watched(s)
    {
      interest := interest + {wakeup};
      if !s.ready {
        interest := interest + {s.comfd};
        interest := interest + {s.readyfd};
      } else {
        interest := interest - {s.comfd};
        interest := interest - {s.readyfd};
        interest := interest - {s.fd};
      }
      assert interest == old(interest) + {wakeup} - Dropped(s) + if s.ready then {} else {s.comfd, s.readyfd};
      var k := 0;
      while k < |s.comfds|
        invariant k <= |s.comfds|
        invariant interest + Elems(s.comfds[k..]) == old(interest) + {wakeup} - Dropped(s) + Watched(s)
      {
        assert s.comfds[k..][1..] == s.comfds[k + 1..];
        interest := interest + {s.comfds[k]};
        k := k + 1;
      }
    }

    /** dsu_pre_epoll. */
    method PreEpoll()
      modifies `interest
      ensures interest == Prepare(binds, wakeup, old(interest))
    {
      var i := 0;
      while i < |binds|
        invariant i <= |binds|
        invariant Prepare(binds[i..], wakeup, interest) == Prepare(binds, wakeup, old(interest))
      {
        assert binds[i..][1..] == binds[i + 1..];
        InternalConn(binds[i]);
        i := i + 1;
      }
    }

    /** The search for the connection that event i belongs to, and the answer to its message. */
    method Respond(s: Sock, i: nat, events: array<Event>, env: Env) returns (comfds: seq<int>, calls: seq<Call>)
      requires i < events.Length
      modifies `interest, events
      ensures var c := old(events[i].fd);
        if c in s.comfds then
          && events[i] == old(events[i]).(fd := HANDLED)
          && calls == Answer(s, c, env.recv(c))
          && comfds == (if Ends(env.recv(c)) then Without(s.comfds, c) else s.comfds)
          && interest == (if Ends(env.recv(c)) then old(interest) - {c} else old(interest))
        else
          events[i] == old(events[i]) && calls == [] && comfds == s.comfds && interest == old(interest)
      ensures forall k :: 0 <= k < events.Length && k != i ==> events[k] == old(events[k])
    {
      comfds, calls := s.comfds, [];
      var k := 0;
      while k < |comfds| && comfds[k] != events[i].fd
        invariant k <= |comfds| && forall j :: 0 <= j < k ==> comfds[j] != events[i].fd
      {
        k := k + 1;
      }
      if k < |comfds| {
        var c := comfds[k];
        events[i] := events[i].(fd := HANDLED);
        calls := Answer(s, c, env.recv(c));
        if Ends(env.recv(c)) {
          WithoutAt(comfds, k);
          interest := interest - {c};
          comfds := Cut(comfds, k);
        }
      }
    }

    /** The body of the loop over the events. */
    method HandleEvent(s: Sock, i: nat, events: array<Event>, env: Env) returns (s': Sock, calls: seq<Call>)
      requires i < events.Length
      modifies `interest, events
      ensures var one := OnEvent(s, old(events[i]), wakeup, old(interest), env);
        && s' == one.sock && calls == one.calls && interest == one.interest
        && events[i] == one.ev && forall k :: 0 <= k < events.Length && k != i ==> events[k] == old(events[k])
    {
      s', calls := s, [];
      if events[i].mask == 0 {
        return;
      }
      if events[i].fd == s.comfd && !s.ready {
        var acc := env.accept(s.comfd);
        calls := [Accept(s.comfd)];
        s' := s.(comfds := s.comfds + if acc != -1 then [acc] else []);
        events[i] := events[i].(fd := HANDLED);
        return;
      }
      if events[i].fd == wakeup {
        calls := [RecvPing(wakeup)];
        events[i] := events[i].(fd := HANDLED);
        return;
      }
      if events[i].fd == s.readyfd {
        s' := s.(ready := true);
        events[i] := events[i].(fd := HANDLED);
        interest := interest - {s.readyfd};
        return;
      }
      var comfds;
      comfds, calls := Respond(s, i, events, env);
      s' := s.(comfds := comfds);
    }

    /** A new version reports ready when its first wait returns. */
    method ReportReady(s: Sock, env: Env) returns (s': Sock, calls: seq<Call>)
      ensures s' == Reported(s) && calls == Report(s, env)
    {
      s', calls := s, [];
      if s.comfdClose > 0 {
        calls := [SendReady(s.comfdClose)];
        if env.sent(s.comfdClose) {
          calls := calls + [Close(s.comfdClose)];
        }
        s' := s'.(comfdClose := -1);
      }
    }

    /** dsu_handle_conn_epoll. */
    method HandleConn(s: Sock, nfds: int, events: array<Event>, env: Env) returns (s': Sock, calls: seq<Call>)
      requires nfds <= events.Length
      modifies `interest, events
      ensures HandleBatch(s, old(Filled(events, nfds)), wakeup, old(interest), env) ==
              Pass(s', Filled(events, nfds), interest, calls)
      ensures forall k :: nfds <= k && 0 <= k < events.Length ==> events[k] == old(events[k])
    {
      s', calls := ReportReady(s, env);
      ghost var evs, done := Filled(events, nfds), [];
      ghost var p := HandleBatch(s, evs, wakeup, interest, env);
      assert evs[0..] == evs;
      var i := 0;
      while i < nfds
        invariant 0 <= i && (i <= nfds || i == 0)
        invariant |done| == i && forall k :: 0 <= k < events.Length ==>
          events[k] == if k < i then done[k] else old(events[k])
        invariant p == JoinPass(Pass(s', done, interest, calls), OnEvents(s', evs[i..], wakeup, interest, env))
      {
        JoinEvent(s', done, evs, i, calls, wakeup, interest, env);
        ghost var one := OnEvent(s', evs[i], wakeup, interest, env);
        var more;
        s', more := HandleEvent(s', i, events, env);
        calls := calls + more;
        done := done + [one.ev];
        i := i + 1;
      }
      assert evs[i..] == [] && Filled(events, nfds) == done;
    }

    /** dsu_handle_conn_epoll for every bound socket. */
    method HandleConns(nfds: int, events: array<Event>, env: Env) returns (calls: seq<Call>)
      requires nfds <= events.Length
      modifies `interest, `binds, events
      ensures HandleAll(old(binds), old(Filled(events, nfds)), wakeup, old(interest), env) ==
              All(binds, Filled(events, nfds), interest, calls)
      ensures forall k :: nfds <= k && 0 <= k < events.Length ==> events[k] == old(events[k])
    {
      calls := [];
      ghost var socks := binds;
      ghost var h := HandleAll(binds, Filled(events, nfds), wakeup, interest, env);
      assert socks[0..] == socks;
      var i := 0;
      while i < |binds|
        invariant i <= |binds| == |socks| && forall j :: i <= j < |binds| ==> binds[j] == socks[j]
        invariant h == JoinAll(binds[..i], calls, HandleAll(socks[i..], Filled(events, nfds), wakeup, interest, env))
        invariant forall k :: nfds <= k && 0 <= k < events.Length ==> events[k] == old(events[k])
      {
        JoinBatch(binds[..i], calls, socks, i, Filled(events, nfds), wakeup, interest, env);
        var s, more := HandleConn(binds[i], nfds, events, env);
        UpdatePrefix(binds, i, s);
        binds := binds[i := s];
        calls := calls + more;
        i := i + 1;
      }
    }

    /** dsu_remove_internal. */
    method RemoveInternal(s: Sock)
      modifies `interest
      ensures interest == old(interest) - {s.comfd} - Elems(s.comfds)
    {
      interest := interest - {s.comfd};
      var k := 0;
      while k < |s.comfds|
        invariant k <= |s.comfds|
        invariant interest - Elems(s.comfds[k..]) == old(interest) - {s.comfd} - Elems(s.comfds)
      {
        assert s.comfds[k..][1..] == s.comfds[k + 1..];
        interest := interest - {s.comfds[k]};
        k := k + 1;
      }
    }

    /** dsu_remove_internal for every bound socket. */
    method RemoveInternals()
      modifies `interest
      ensures interest == Cleanup(binds, old(interest))
    {
      var i := 0;
      while i < |binds|
        invariant i <= |binds|
        invariant Cleanup(binds[i..], interest) == Cleanup(binds, old(interest))
      {
        assert binds[i..][1..] == binds[i + 1..];
        RemoveInternal(binds[i]);
        i := i + 1;
      }
    }

    /** dsu_post_epoll. */
    method PostEpoll(nfds: int, events: array<Event>, env: Env) returns (left: int, calls: seq<Call>)
      requires nfds <= events.Length
      modifies `interest, `binds, events
      ensures left <= nfds && (left < 0 <==> nfds < 0) && (nfds < 0 ==> left == nfds)
      ensures AfterWait(old(binds), old(Filled(events, nfds)), wakeup, old(interest), env) ==
              All(binds, Filled(events, left), interest, calls)
    {
      calls := HandleConns(nfds, events, env);
      interest := interest - {wakeup};
      RemoveInternals();
      left := CorrectEvents(nfds, events);
    }

    /** The kernel's wait: it fills the array from the front. */
    method Deliver(evs: seq<Event>, events: array<Event>)
      requires |evs| <= events.Length
      modifies events
      ensures events[..|evs|] == evs
    {
      var i := 0;
      while i < |evs|
        invariant i <= |evs|
        invariant events[..i] == evs[..i]
      {
        events[i] := evs[i];
        i := i + 1;
      }
    }

    /**
      epoll_wait().  `rounds` is what the kernel does from now on, wait by wait;
      without a result the wrapper still waits in the kernel when they are
      used up.
     */
    method EpollWait(events: array<Event>, maxevents: nat, forever: bool, rounds: seq<Kernel>)
      returns (result: Option<int>, used: nat)
      requires maxevents <= events.Length
      requires forall k :: 0 <= k < |rounds| ==> |EventsOf(rounds[k])| <= maxevents
      modifies `interest, `binds, events
      ensures result.Some? ==> result.value <= events.Length
      ensures Waited(old(binds), wakeup, old(interest), forever, rounds) ==
              Outcome(binds, if result.Some? then Filled(events, result.value) else [], interest, result, used)
      decreases rounds
    {
      PreEpoll();
      if rounds == [] {
        return None, 0;
      }
      Deliver(EventsOf(rounds[0]), events);
      var nfds := if rounds[0].Failure? then -1 else |EventsOf(rounds[0])|;
      var left, calls := PostEpoll(nfds, events, rounds[0].env);
      if left == 0 && forever {
        result, used := EpollWait(events, maxevents, forever, rounds[1..]);
        used := used + 1;
      } else {
        result, used := Some(left), 1;
      }
    }
  }
}
