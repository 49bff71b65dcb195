/**
  Callbacks paired on a transaction's outcome.  A session dispatches `after_commit` and
  `after_rollback` for the outer transaction and for every SAVEPOINT alike; a pair must
  react to the first outer outcome only, with one callback, once.

  `Session` is the machine the code builds: a pair that has reacted is flagged at once but
  stays on the listener list until the event loop turns.  `Ideal` drops it on the spot.
*/
module TransactionalHooks {
  import opened Common

  datatype Hooks<+T> = Hooks(onCommit: Option<T>, onRollback: Option<T>)

  datatype Listener<+T> = Listener(id: nat, hooks: Hooks<T>, retired: bool)

  datatype Fired<+T> = Fired(id: nat, callback: T)

  /** `depth` counts the open savepoints; `doomed` the removals queued on the event loop. */
  datatype Session<+T> = Session(
    depth: nat,
    listeners: seq<Listener<T>>,
    doomed: set<nat>,
    nextId: nat,
    log: seq<Fired<T>>)

  /** An outer outcome needs every savepoint closed first, and closing one needs one to be open. */
  datatype Event<+T> =
    | Register(hooks: Hooks<T>)
    | BeginSavepoint
    | EndSavepoint(committed: bool)
    | Outcome(committed: bool)
    | LoopTurn

  function Idle<T>(): Session<T> {
    Session(0, [], {}, 0, [])
  }

  function Chosen<T>(h: Hooks<T>, committed: bool): Option<T> {
    if committed then h.onCommit else h.onRollback
  }

  /** What one listener does when the session dispatches to it. */
  function React<T>(l: Listener<T>, committed: bool, nested: bool): seq<Fired<T>> {
    if l.retired || nested then []
    else
      var callback := Chosen(l.hooks, committed);
      if callback.Some? then [Fired(l.id, callback.value)] else []
  }

  function ReactAll<T>(ls: seq<Listener<T>>, committed: bool, nested: bool): seq<Fired<T>> {
    if ls == [] then [] else React(ls[0], committed, nested) + ReactAll(ls[1..], committed, nested)
  }

  function RetireAll<T>(ls: seq<Listener<T>>): seq<Listener<T>> {
    seq(|ls|, i requires 0 <= i < |ls| => ls[i].(retired := true))
  }

  function LiveIds<T>(ls: seq<Listener<T>>): set<nat> {
    set i | 0 <= i < |ls| && !ls[i].retired :: ls[i].id
  }

  function Keep<T>(ls: seq<Listener<T>>, doomed: set<nat>): seq<Listener<T>> {
    if ls == [] then []
    else if ls[0].id in doomed then Keep(ls[1..], doomed)
    else [ls[0]] + Keep(ls[1..], doomed)
  }

  function Dispatch<T>(s: Session<T>, committed: bool): Session<T> {
    var nested := s.depth > 0;
    var log := s.log + ReactAll(s.listeners, committed, nested);
    if nested then s.(log := log)
    else s.(listeners := RetireAll(s.listeners), doomed := s.doomed + LiveIds(s.listeners), log := log)
  }

  function Next<T>(s: Session<T>, e: Event<T>): Session<T> {
    match e
    case Register(h) => s.(listeners := s.listeners + [Listener(s.nextId, h, false)], nextId := s.nextId + 1)
    case BeginSavepoint => s.(depth := s.depth + 1)
    case EndSavepoint(committed) =>
      if s.depth == 0 then s
      else
        var d := Dispatch(s, committed);
        d.(depth := d.depth - 1)
    case Outcome(committed) => if s.depth > 0 then s else Dispatch(s, committed)
    case LoopTurn => s.(listeners := Keep(s.listeners, s.doomed), doomed := {})
  }

  function Run<T>(s: Session<T>, es: seq<Event<T>>): Session<T>
    decreases |es|
  {
    if es == [] then s else Run(Next(s, es[0]), es[1..])
  }

  // ----- The machine without the delay -----

  datatype Ideal<+T> = Ideal(depth: nat, live: seq<Listener<T>>, nextId: nat, log: seq<Fired<T>>)

  function IdealNext<T>(s: Ideal<T>, e: Event<T>): Ideal<T> {
    match e
    case Register(h) => s.(live := s.live + [Listener(s.nextId, h, false)], nextId := s.nextId + 1)
    case BeginSavepoint => s.(depth := s.depth + 1)
    case EndSavepoint(_) => if s.depth == 0 then s else s.(depth := s.depth - 1)
    case Outcome(committed) =>
      if s.depth > 0 then s else s.(live := [], log := s.log + ReactAll(s.live, committed, false))
    case LoopTurn => s
  }

  function IdealRun<T>(s: Ideal<T>, es: seq<Event<T>>): Ideal<T>
    decreases |es|
  {
    if es == [] then s else IdealRun(IdealNext(s, es[0]), es[1..])
  }

  function Live<T>(ls: seq<Listener<T>>): seq<Listener<T>> {
    if ls == [] then []
    else if ls[0].retired then Live(ls[1..])
    else [ls[0]] + Live(ls[1..])
  }

  function Forget<T>(s: Session<T>): Ideal<T> {
    Ideal(s.depth, Live(s.listeners), s.nextId, s.log)
  }

  ghost predicate Valid<T>(s: Session<T>) {
    && (forall l :: l in s.listeners ==> l.id < s.nextId && (l.id in s.doomed ==> l.retired))
    && (forall n :: n in s.doomed ==> n < s.nextId)
    && (forall i, j :: 0 <= i < j < |s.listeners| ==> s.listeners[i].id != s.listeners[j].id)
  }

  lemma {:induction false} LiveConcat<T>(a: seq<Listener<T>>, b: seq<Listener<T>>)
    ensures Live(a + b) == Live(a) + Live(b)
  {
    if a == [] {
      assert a + b == b;
    } else {
      assert (a + b)[1..] == a[1..] + b;
      LiveConcat(a[1..], b);
    }
  }

  lemma {:induction false} NestedDispatchIsSilent<T>(ls: seq<Listener<T>>, committed: bool)
    ensures ReactAll(ls, committed, true) == []
  {
    if ls != [] {
      NestedDispatchIsSilent(ls[1..], committed);
    }
  }

  lemma {:induction false} OnlyLiveReact<T>(ls: seq<Listener<T>>, committed: bool)
    ensures ReactAll(ls, committed, false) == ReactAll(Live(ls), committed, false)
  {
    if ls != [] {
      OnlyLiveReact(ls[1..], committed);
      if ls[0].retired {
        assert ReactAll(ls, committed, false) == ReactAll(ls[1..], committed, false);
      } else {
        assert Live(ls)[1..] == Live(ls[1..]);
      }
    }
  }

  lemma {:induction false} NoneLiveOnceRetired<T>(ls: seq<Listener<T>>)
    requires forall l :: l in ls ==> l.retired
    ensures Live(ls) == []
  {
    if ls != [] {
      NoneLiveOnceRetired(ls[1..]);
    }
  }

  lemma {:induction false} KeepDropsOnlyRetired<T>(ls: seq<Listener<T>>, doomed: set<nat>)
    requires forall l :: l in ls && l.id in doomed ==> l.retired
    requires forall i, j :: 0 <= i < j < |ls| ==> ls[i].id != ls[j].id
    ensures Live(Keep(ls, doomed)) == Live(ls)
    ensures forall l :: l in Keep(ls, doomed) ==> l in ls
    ensures forall i, j :: 0 <= i < j < |Keep(ls, doomed)| ==> Keep(ls, doomed)[i].id != Keep(ls, doomed)[j].id
  {
    if ls != [] {
      KeepDropsOnlyRetired(ls[1..], doomed);
      var rest := Keep(ls[1..], doomed);
      if ls[0].id !in doomed {
        assert Keep(ls, doomed)[1..] == rest;
        assert forall l :: l in rest ==> l in ls[1..];
        assert forall l :: l in ls[1..] ==> l.id != ls[0].id;
      }
    }
  }

  lemma StepRefines<T>(s: Session<T>, e: Event<T>)
    requires Valid(s)
    ensures Valid(Next(s, e))
    ensures Forget(Next(s, e)) == IdealNext(Forget(s), e)
  {
    match e
    case Register(h) =>
      LiveConcat(s.listeners, [Listener(s.nextId, h, false)]);
      assert Live([Listener(s.nextId, h, false)]) == [Listener(s.nextId, h, false)];
    case BeginSavepoint =>
    case EndSavepoint(committed) =>
      NestedDispatchIsSilent(s.listeners, committed);
    case Outcome(committed) =>
      OnlyLiveReact(s.listeners, committed);
      NoneLiveOnceRetired(RetireAll(s.listeners));
      var t := Next(s, e);
      assert s.depth == 0 ==> forall l :: l in t.listeners ==> l.retired && l.id < s.nextId;
    case LoopTurn =>
      KeepDropsOnlyRetired(s.listeners, s.doomed);
  }

  /**
    The late removal is unobservable: over any events, across any number of transactions on
    the session, the callbacks that run are those of the machine that removes a pair at once.
  */
  lemma {:induction false} LateRemovalIsUnobservable<T>(s: Session<T>, es: seq<Event<T>>)
    requires Valid(s)
    ensures Valid(Run(s, es))
    ensures Forget(Run(s, es)) == IdealRun(Forget(s), es)
    decreases |es|
  {
    if es != [] {
      StepRefines(s, es[0]);
      LateRemovalIsUnobservable(Next(s, es[0]), es[1..]);
    }
  }

  // ----- Which callback, and how often -----

  /** The first outer outcome in a stream of events that starts `depth` savepoints deep. */
  function FirstOutcome<T>(depth: nat, es: seq<Event<T>>): Option<bool>
    decreases |es|
  {
    if es == [] then None
    else match es[0]
      case BeginSavepoint => FirstOutcome(depth + 1, es[1..])
      case EndSavepoint(_) => FirstOutcome(if depth == 0 then 0 else depth - 1, es[1..])
      case Outcome(committed) => if depth == 0 then Some(committed) else FirstOutcome(depth, es[1..])
      case _ => FirstOutcome(depth, es[1..])
  }

  /** The callbacks a pair runs, given the outcome that decided it. */
  function Decided<T>(h: Hooks<T>, outcome: Option<bool>): seq<T> {
    if outcome.None? || Chosen(h, outcome.value).None? then [] else [Chosen(h, outcome.value).value]
  }

  function RunBy<T>(log: seq<Fired<T>>, id: nat): seq<T> {
    if log == [] then []
    else if log[0].id == id then [log[0].callback] + RunBy(log[1..], id)
    else RunBy(log[1..], id)
  }

  lemma {:induction false} RunByConcat<T>(a: seq<Fired<T>>, b: seq<Fired<T>>, id: nat)
    ensures RunBy(a + b, id) == RunBy(a, id) + RunBy(b, id)
  {
    if a == [] {
      assert a + b == b;
    } else {
      assert (a + b)[1..] == a[1..] + b;
      RunByConcat(a[1..], b, id);
    }
  }

  /** A dispatch runs, of each live pair, exactly the chosen callback. */
  lemma {:induction false} DispatchRunsEachOnce<T>(ls: seq<Listener<T>>, committed: bool, id: nat)
    requires forall l :: l in ls ==> !l.retired
    requires forall i, j :: 0 <= i < j < |ls| ==> ls[i].id != ls[j].id
    ensures forall l :: l in ls && l.id == id ==>
      RunBy(ReactAll(ls, committed, false), id) == Decided(l.hooks, Some(committed))
    ensures (forall l :: l in ls ==> l.id != id) ==> RunBy(ReactAll(ls, committed, false), id) == []
  {
    if ls != [] {
      DispatchRunsEachOnce(ls[1..], committed, id);
      RunByConcat(React(ls[0], committed, false), ReactAll(ls[1..], committed, false), id);
      assert forall l :: l in ls[1..] ==> l.id != ls[0].id;
      assert forall l :: l in ls ==> l == ls[0] || l in ls[1..];
    }
  }

  ghost predicate IdealValid<T>(s: Ideal<T>) {
    && (forall l :: l in s.live ==> l.id < s.nextId && !l.retired)
    && (forall i, j :: 0 <= i < j < |s.live| ==> s.live[i].id != s.live[j].id)
  }

  /** An outcome that is not a savepoint's. */
  predicate Decides<T>(depth: nat, e: Event<T>) {
    e.Outcome? && depth == 0
  }

  /** One event: an outer outcome runs what it decides and drops the pair; nothing else touches it. */
  lemma IdealStepRuns<T>(s: Ideal<T>, e: Event<T>, l: Listener<T>)
    requires IdealValid(s) && l.id < s.nextId
    requires l in s.live || forall m :: m in s.live ==> m.id != l.id
    ensures var t := IdealNext(s, e);
      && IdealValid(t) && l.id < t.nextId
      && (l in t.live || forall m :: m in t.live ==> m.id != l.id)
      && (Decides(s.depth, e) ==> l !in t.live)
      && (!Decides(s.depth, e) ==> (l in t.live <==> l in s.live) && RunBy(t.log, l.id) == RunBy(s.log, l.id))
  {
  }

  lemma IdealOutcomeRuns<T>(s: Ideal<T>, e: Event<T>, l: Listener<T>)
    requires IdealValid(s) && Decides(s.depth, e)
    requires l in s.live || forall m :: m in s.live ==> m.id != l.id
    ensures RunBy(IdealNext(s, e).log, l.id)
         == RunBy(s.log, l.id) + (if l in s.live then Decided(l.hooks, Some(e.committed)) else [])
  {
    DispatchRunsEachOnce(s.live, e.committed, l.id);
    RunByConcat(s.log, ReactAll(s.live, e.committed, false), l.id);
  }

  lemma {:induction false} IdealPairRunsOnce<T>(s: Ideal<T>, es: seq<Event<T>>, l: Listener<T>)
    requires IdealValid(s) && l.id < s.nextId
    requires l in s.live || forall m :: m in s.live ==> m.id != l.id
    ensures RunBy(IdealRun(s, es).log, l.id)
         == RunBy(s.log, l.id) + (if l in s.live then Decided(l.hooks, FirstOutcome(s.depth, es)) else [])
    decreases |es|
  {
    if es != [] {
      IdealStepRuns(s, es[0], l);
      IdealPairRunsOnce(IdealNext(s, es[0]), es[1..], l);
      if Decides(s.depth, es[0]) {
        IdealOutcomeRuns(s, es[0], l);
      }
    }
  }

  lemma {:induction false} LiveOfValid<T>(ls: seq<Listener<T>>)
    requires forall i, j :: 0 <= i < j < |ls| ==> ls[i].id != ls[j].id
    ensures forall l :: l in Live(ls) ==> l in ls && !l.retired
    ensures forall l :: l in ls && !l.retired ==> l in Live(ls)
    ensures forall i, j :: 0 <= i < j < |Live(ls)| ==> Live(ls)[i].id != Live(ls)[j].id
  {
    if ls != [] {
      LiveOfValid(ls[1..]);
      assert forall l :: l in ls <==> l == ls[0] || l in ls[1..];
      if !ls[0].retired {
        var rest := Live(ls[1..]);
        assert Live(ls) == [ls[0]] + rest;
        assert forall l :: l in rest ==> l in ls[1..];
        assert forall l :: l in ls[1..] ==> l.id != ls[0].id;
      }
    }
  }

  /**
    A pair registered at any moment runs at most one of its two callbacks, at most once:
    the one matching the first outer outcome that follows, whatever savepoints, loop turns,
    other registrations and later transactions surround it.
  */
  lemma EachPairRunsOnce<T>(s: Session<T>, h: Hooks<T>, es: seq<Event<T>>)
    requires Valid(s) && RunBy(s.log, s.nextId) == []
    ensures RunBy(Run(Next(s, Register(h)), es).log, s.nextId) == Decided(h, FirstOutcome(s.depth, es))
  {
    var l := Listener(s.nextId, h, false);
    var t := Next(s, Register(h));
    StepRefines(s, Register(h));
    LateRemovalIsUnobservable(t, es);
    LiveOfValid(t.listeners);
    assert l in t.listeners by {
      assert t.listeners[|s.listeners|] == l;
    }
    assert IdealValid(Forget(t)) by {
      assert forall m :: m in Live(t.listeners) ==> m in t.listeners && !m.retired;
    }
    IdealPairRunsOnce(Forget(t), es, l);
  }

  lemma {:induction false} UnseenIdsRunNothing<T>(log: seq<Fired<T>>, id: nat)
    requires forall f :: f in log ==> f.id != id
    ensures RunBy(log, id) == []
  {
    if log != [] {
      UnseenIdsRunNothing(log[1..], id);
    }
  }

  lemma {:induction false} ReactIds<T>(ls: seq<Listener<T>>, committed: bool, nested: bool)
    ensures forall f :: f in ReactAll(ls, committed, nested) ==> exists l :: l in ls && l.id == f.id
  {
    if ls != [] {
      ReactIds(ls[1..], committed, nested);
      forall f | f in ReactAll(ls, committed, nested)
        ensures exists l :: l in ls && l.id == f.id
      {
        if f in ReactAll(ls[1..], committed, nested) {
          var l :| l in ls[1..] && l.id == f.id;
          assert l in ls;
        } else {
          assert ls[0] in ls;
        }
      }
    }
  }

  /** From a fresh session no pair has run anything before it is registered, so the above applies to every pair. */
  lemma {:induction false} NothingRunsBeforeRegistration<T>(s: Session<T>, es: seq<Event<T>>, id: nat)
    requires Valid(s) && (forall f :: f in s.log ==> f.id < s.nextId)
    ensures var t := Run(s, es);
      && (forall f :: f in t.log ==> f.id < t.nextId)
      && s.nextId <= t.nextId
      && (t.nextId <= id ==> RunBy(t.log, id) == [])
    decreases |es|
  {
    if es == [] {
      if s.nextId <= id {
        UnseenIdsRunNothing(s.log, id);
      }
    } else {
      StepRefines(s, es[0]);
      if es[0].EndSavepoint? || es[0].Outcome? {
        ReactIds(s.listeners, es[0].committed, s.depth > 0);
      }
      NothingRunsBeforeRegistration(Next(s, es[0]), es[1..], id);
    }
  }

  // ----- The code's own shape: flags flipped and lists mutated in place -----

  function NotifyOne<T>(s: Session<T>, i: nat, committed: bool): Session<T>
    requires i < |s.listeners|
  {
    var l := s.listeners[i];
    if l.retired || s.depth > 0 then s
    else s.(listeners := s.listeners[i := l.(retired := true)], doomed := s.doomed + {l.id},
            log := s.log + React(l, committed, false))
  }

  function NotifyFirst<T>(s: Session<T>, n: nat, committed: bool): (t: Session<T>)
    requires n <= |s.listeners|
    ensures |t.listeners| == |s.listeners|
  {
    if n == 0 then s else NotifyOne(NotifyFirst(s, n - 1, committed), n - 1, committed)
  }

  /** The listeners once the first n of them are retired. */
  function RetireFirst<T>(ls: seq<Listener<T>>, n: nat): seq<Listener<T>> {
    seq(|ls|, i requires 0 <= i < |ls| => if i < n then ls[i].(retired := true) else ls[i])
  }

  lemma RetireOneMore<T>(ls: seq<Listener<T>>, n: nat)
    requires n < |ls|
    ensures RetireFirst(ls, n)[n] == ls[n]
    ensures RetireFirst(ls, n + 1) == RetireFirst(ls, n)[n := ls[n].(retired := true)]
    ensures ls[n].retired ==> RetireFirst(ls, n + 1) == RetireFirst(ls, n)
  {
  }

  function DispatchFirst<T>(s: Session<T>, n: nat, committed: bool): Session<T>
    requires n <= |s.listeners|
  {
    var log := s.log + ReactAll(s.listeners[..n], committed, s.depth > 0);
    if s.depth > 0 then s.(log := log)
    else s.(listeners := RetireFirst(s.listeners, n), doomed := s.doomed + LiveIds(s.listeners[..n]), log := log)
  }

  lemma {:induction false} ReactAllAppend<T>(ls: seq<Listener<T>>, l: Listener<T>, committed: bool, nested: bool)
    ensures ReactAll(ls + [l], committed, nested) == ReactAll(ls, committed, nested) + React(l, committed, nested)
  {
    if ls == [] {
      assert ls + [l] == [l];
    } else {
      assert (ls + [l])[1..] == ls[1..] + [l];
      ReactAllAppend(ls[1..], l, committed, nested);
    }
  }

  lemma LiveIdsAppend<T>(ls: seq<Listener<T>>, l: Listener<T>)
    ensures LiveIds(ls + [l]) == LiveIds(ls) + if l.retired then {} else {l.id}
  {
    var all := ls + [l];
    assert all[|ls|] == l;
    assert forall i :: 0 <= i < |ls| ==> all[i] == ls[i];
  }

  lemma DispatchOneMore<T>(s: Session<T>, n: nat, committed: bool)
    requires n < |s.listeners|
    ensures DispatchFirst(s, n + 1, committed) == NotifyOne(DispatchFirst(s, n, committed), n, committed)
  {
    var head, l := s.listeners[..n], s.listeners[n];
    assert s.listeners[..n + 1] == head + [l];
    ReactAllAppend(head, l, committed, s.depth > 0);
    if s.depth == 0 {
      LiveIdsAppend(head, l);
      RetireOneMore(s.listeners, n);
    }
  }

  /** Notifying the listeners one by one, in order, is the dispatch. */
  lemma {:induction false} NotifyFirstIsDispatch<T>(s: Session<T>, n: nat, committed: bool)
    requires n <= |s.listeners|
    ensures NotifyFirst(s, n, committed) == DispatchFirst(s, n, committed)
    ensures n == |s.listeners| ==> NotifyFirst(s, n, committed) == Dispatch(s, committed)
  {
    if n == 0 {
      assert RetireFirst(s.listeners, 0) == s.listeners;
    } else {
      NotifyFirstIsDispatch(s, n - 1, committed);
      DispatchOneMore(s, n - 1, committed);
    }
    if n == |s.listeners| {
      assert s.listeners[..n] == s.listeners;
      assert RetireFirst(s.listeners, n) == RetireAll(s.listeners);
    }
  }

  class HookRegistry<T> {
    var depth: nat
    var listeners: seq<Listener<T>>
    var doomed: set<nat>
    var nextId: nat
    var log: seq<Fired<T>>

    ghost function View(): Session<T>
      reads this
    {
      Session(depth, listeners, doomed, nextId, log)
    }

    constructor ()
      ensures View() == Idle()
    {
      depth, listeners, doomed, nextId, log := 0, [], {}, 0, [];
    }

    method RunAfterOutcome(hooks: Hooks<T>)
      modifies this
      ensures View() == Next(old(View()), Register(hooks))
    {
      listeners := listeners + [Listener(nextId, hooks, false)];
      nextId := nextId + 1;
    }

    /** One listener's closure: ignore a savepoint or a second call, else retire the pair and run a callback. */
    method Notify(i: nat, committed: bool)
      requires i < |listeners|
      modifies this
      ensures View() == NotifyOne(old(View()), i, committed)
    {
      var l := listeners[i];
      if l.retired || depth > 0 {
        return;
      }
      listeners := listeners[i := l.(retired := true)];
      doomed := doomed + {l.id};
      var callback := Chosen(l.hooks, committed);
      if callback.Some? {
        log := log + [Fired(l.id, callback.value)];
      }
    }

    /** The session walks its listeners; each one looks at its own flag and at the nesting. */
    method Announce(committed: bool)
      modifies this
      ensures View() == Dispatch(old(View()), committed)
    {
      var i := 0;
      while i < |listeners|
        invariant i <= |listeners| == |old(listeners)|
        invariant View() == NotifyFirst(old(View()), i, committed)
      {
        Notify(i, committed);
        i := i + 1;
      }
      NotifyFirstIsDispatch(old(View()), i, committed);
    }

    method TurnLoop()
      modifies this
      ensures View() == Next(old(View()), LoopTurn)
    {
      listeners := Keep(listeners, doomed);
      doomed := {};
    }
  }
}
