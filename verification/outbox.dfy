/** Messages owed in the transaction that caused them, and the passes that deliver
    them. */
module Outbox {
  import opened Options
  import Sums

  type Id = nat

  const MAX_ATTEMPTS: nat := 8
  const BATCH_SIZE: nat := 20
  const MINUTE: int := 60

  datatype Message = Message(
    kind: string, key: string, attempts: int, availableAt: int, deliveredAt: Option<int>)

  /** The outbox and the log of claimed sends; and, of what committed passes did,
      each call of the transport and the messages it took. */
  datatype Queue = Queue(messages: map<Id, Message>, log: set<Id>, calls: seq<Id>, taken: set<Id>)

  /** How one pass goes: whether the mail could be rendered, whether the transport
      took it, and whether the closing statement and the commit went through where
      nothing earlier had failed. */
  datatype Weather = Weather(renders: bool, sends: bool, commits: bool)

  // ---- one pass ---------------------------------------------------------------------------

  predicate Due(m: Message, now: int) {
    m.deliveredAt.None? && m.availableAt <= now && m.attempts < MAX_ATTEMPTS
  }

  /** order by available_at limit 1 for update skip locked. */
  predicate Next(messages: map<Id, Message>, busy: set<Id>, now: int, id: Id) {
    && id in messages && id !in busy && Due(messages[id], now)
    && forall o | o in messages && o !in busy && Due(messages[o], now) ::
         messages[id].availableAt <= messages[o].availableAt
  }

  function Backoff(attempts: int): int {
    attempts * MINUTE
  }

  function Failed(m: Message, now: int): Message {
    m.(attempts := m.attempts + 1, availableAt := now + Backoff(m.attempts + 1))
  }

  function Delivered(m: Message, now: int): Message {
    m.(attempts := m.attempts + 1, deliveredAt := Some(now))
  }

  /** The handler gets as far as claiming the right to send. */
  predicate ReachesTheLog(q: Queue, handlers: set<string>, id: Id, w: Weather)
    requires id in q.messages
  {
    q.messages[id].kind in handlers && w.renders
  }

  /** Whether the pass commits. The log takes one row a message and the insert has no
      savepoint, so a second one fails the transaction: the handler answers that the
      mail is sent already, and the closing update is refused. */
  predicate Completes(q: Queue, handlers: set<string>, id: Id, w: Weather)
    requires id in q.messages
  {
    w.commits && !(ReachesTheLog(q, handlers, id, w) && id in q.log)
  }

  /** Claim, hand to the handler, and record how it went. A pass that does not
      commit leaves nothing, not even the log row its handler wrote. */
  function Pass(q: Queue, handlers: set<string>, id: Id, now: int, w: Weather): Queue
    requires id in q.messages
  {
    var m := q.messages[id];
    if !Completes(q, handlers, id, w) then q
    else if !ReachesTheLog(q, handlers, id, w) then q.(messages := q.messages[id := Failed(m, now)])
    else
      Queue(q.messages[id := if w.sends then Delivered(m, now) else Failed(m, now)],
            q.log + {id}, q.calls + [id], if w.sends then q.taken + {id} else q.taken)
  }

  /** on conflict (kind, key) do nothing. */
  predicate Owed(messages: map<Id, Message>, kind: string, key: string) {
    exists i :: i in messages && messages[i].kind == kind && messages[i].key == key
  }

  function Add(q: Queue, id: Id, kind: string, key: string, now: int): Queue
    requires id !in q.messages
  {
    if kind == "" || key == "" || Owed(q.messages, kind, key) then q
    else q.(messages := q.messages[id := Message(kind, key, 0, now, None)])
  }

  /** The message owes this effect. */
  ghost predicate Owes(m: Message, kind: string, key: string) {
    kind == m.kind && key == m.key
  }

  ghost predicate ByOne(messages: map<Id, Message>, kind: string, key: string) {
    && (exists i :: i in messages && Owes(messages[i], kind, key))
    && forall i, j | i in messages && j in messages && Owes(messages[i], kind, key) && Owes(messages[j], kind, key) ::
         i == j
  }

  /** What asking for an effect leaves: every message as it was; the effect owed, by one
      message if never by more; and if nothing owed it, a new message that does, never
      tried, not delivered and due at once. */
  ghost predicate Asked(before: map<Id, Message>, after: map<Id, Message>, id: Id, kind: string, key: string,
                        now: int)
  {
    && (forall i | i in before :: i in after && after[i] == before[i])
    && (exists i :: i in after && Owes(after[i], kind, key))
    && (OwedOnce(before) ==> ByOne(after, kind, key))
    && ((forall i | i in before :: !Owes(before[i], kind, key)) ==>
          after.Keys == before.Keys + {id} && after[id] == Message(kind, key, 0, now, None))
    && ((exists i :: i in before && Owes(before[i], kind, key)) ==> after == before)
  }

  lemma AddAsks(q: Queue, id: Id, kind: string, key: string, now: int)
    requires id !in q.messages && kind != "" && key != ""
    ensures Asked(q.messages, Add(q, id, kind, key, now).messages, id, kind, key, now)
  {
    var after := Add(q, id, kind, key, now).messages;
    if i :| i in q.messages && Owes(q.messages[i], kind, key) {
      assert Owed(q.messages, kind, key);
    } else {
      assert !Owed(q.messages, kind, key);
      assert Owes(after[id], kind, key);
    }
  }

  lemma {:induction false} NextExists(messages: map<Id, Message>, busy: set<Id>, now: int, ids: set<Id>, i: Id)
    returns (best: Id)
    requires i in ids && forall o | o in ids :: o in messages
    ensures best in ids && forall o | o in ids :: messages[best].availableAt <= messages[o].availableAt
    decreases |ids|
  {
    best := i;
    var rest := ids - {i};
    if j :| j in rest {
      var b := NextExists(messages, busy, now, rest, j);
      if messages[b].availableAt < messages[i].availableAt {
        best := b;
      }
    }
    forall o | o in ids ensures messages[best].availableAt <= messages[o].availableAt {
      assert o == i || o in rest;
    }
  }

  // ---- what every pass keeps -----------------------------------------------------------------

  function Count(xs: seq<Id>, id: Id): nat {
    if xs == [] then 0 else Count(xs[..|xs| - 1], id) + if xs[|xs| - 1] == id then 1 else 0
  }

  ghost predicate Bounded(messages: map<Id, Message>) {
    forall i | i in messages :: 0 <= messages[i].attempts <= MAX_ATTEMPTS
  }

  /** An effect is owed by one message. */
  ghost predicate OwedOnce(messages: map<Id, Message>) {
    forall i, j | i in messages && j in messages && i != j ::
      messages[i].kind != messages[j].kind || messages[i].key != messages[j].key
  }

  /** The transport is called at most once for a message, and not without its row
      in the log. */
  ghost predicate CalledOnce(calls: seq<Id>, log: set<Id>) {
    forall i :: Count(calls, i) == if i in log then 1 else 0
  }

  /** Logged messages exist, taken ones were logged, and delivered is taken. */
  ghost predicate LogIsRight(messages: map<Id, Message>, log: set<Id>, taken: set<Id>) {
    && taken <= log && log <= messages.Keys
    && forall i | i in messages :: i in taken <==> messages[i].deliveredAt.Some?
  }

  ghost predicate Inv(q: Queue) {
    && Bounded(q.messages) && OwedOnce(q.messages)
    && CalledOnce(q.calls, q.log) && LogIsRight(q.messages, q.log, q.taken)
  }

  lemma CallLogged(calls: seq<Id>, log: set<Id>, id: Id)
    requires CalledOnce(calls, log) && id !in log
    ensures CalledOnce(calls + [id], log + {id})
  {
    forall i ensures Count(calls + [id], i) == if i in log + {id} then 1 else 0 {
      assert (calls + [id])[..|calls|] == calls;
    }
  }

  lemma PassKeeps(q: Queue, handlers: set<string>, id: Id, now: int, w: Weather)
    requires Inv(q) && id in q.messages && Due(q.messages[id], now)
    ensures Inv(Pass(q, handlers, id, now, w))
  {
    if id !in q.log {
      CallLogged(q.calls, q.log, id);
    }
  }

  lemma AddKeeps(q: Queue, id: Id, kind: string, key: string, now: int)
    requires Inv(q) && id !in q.messages
    ensures Inv(Add(q, id, kind, key, now))
  {
  }

  /** A committed pass counts one attempt on the message it claimed and touches no
      other; one that does not commit changes nothing. */
  lemma PassCountsOnce(q: Queue, handlers: set<string>, id: Id, now: int, w: Weather)
    requires id in q.messages
    ensures var out := Pass(q, handlers, id, now, w);
            && out.messages.Keys == q.messages.Keys
            && (forall o | o in q.messages && o != id :: out.messages[o] == q.messages[o])
            && out.messages[id].attempts == q.messages[id].attempts
                                            + (if Completes(q, handlers, id, w) then 1 else 0)
            && (out == q <==> !Completes(q, handlers, id, w))
  {
  }

  /** A message a committed pass failed on is due again exactly from as many minutes on as
      it has been tried, if that is fewer than eight times; one it delivered never is. */
  lemma RetryWaits(q: Queue, handlers: set<string>, id: Id, now: int, w: Weather, at: int)
    requires id in q.messages && Due(q.messages[id], now) && Completes(q, handlers, id, w)
    ensures var tried, after := q.messages[id].attempts + 1, Pass(q, handlers, id, now, w).messages[id];
            var sent := q.messages[id].kind in handlers && w.renders && w.sends;
            && after.deliveredAt == (if sent then Some(now) else None)
            && (after.deliveredAt.None? ==> (Due(after, at) <==> at >= now + 60 * tried && tried < 8))
            && (after.deliveredAt.Some? ==> !Due(after, at))
  {
  }

  // ---- it ends ----------------------------------------------------------------------------------

  function Left(m: Message): int {
    if m.deliveredAt.Some? then 0 else MAX_ATTEMPTS - m.attempts
  }

  function Lefts(messages: map<Id, Message>): map<int, int> {
    map i: int | i in messages :: Left(messages[i])
  }

  /** The attempts the queue can still make. */
  ghost function Remaining(q: Queue): int {
    Sums.SumMap(Lefts(q.messages))
  }

  lemma LeftsUpdate(messages: map<Id, Message>, id: Id, m: Message)
    ensures Lefts(messages[id := m]) == Lefts(messages)[id := Left(m)]
  {
  }

  /** Every committed pass uses up at least one of them. */
  lemma PassUsesAnAttempt(q: Queue, handlers: set<string>, id: Id, now: int, w: Weather)
    requires id in q.messages && Due(q.messages[id], now)
    ensures Remaining(Pass(q, handlers, id, now, w))
         <= Remaining(q) - (if Completes(q, handlers, id, w) then 1 else 0)
  {
    if Completes(q, handlers, id, w) {
      var m := Pass(q, handlers, id, now, w).messages[id];
      LeftsUpdate(q.messages, id, m);
      Sums.SumMapUpdate(Lefts(q.messages), id, Left(m));
      assert Pass(q, handlers, id, now, w).messages == q.messages[id := m];
    }
  }

  lemma {:induction false} SumNonNegative(keys: set<int>, m: map<int, int>)
    requires keys <= m.Keys && forall k | k in keys :: m[k] >= 0
    ensures Sums.SumOver(keys, m) >= 0
  {
    if k :| k in keys {
      Sums.SumOverRemove(keys, m, k);
      SumNonNegative(keys - {k}, m);
    }
  }

  lemma RemainingIsNotNegative(q: Queue)
    requires Inv(q)
    ensures Remaining(q) >= 0
  {
    SumNonNegative(Lefts(q.messages).Keys, Lefts(q.messages));
  }

  // ---- every run ---------------------------------------------------------------------------------

  /** What happens to a queue: a message is owed, or some dispatcher runs a pass. */
  datatype Action =
    | Owe(id: Id, kind: string, key: string, at: int)
    | Deliver(id: Id, at: int, handlers: set<string>, weather: Weather)

  predicate Possible(q: Queue, a: Action) {
    match a
    case Owe(id, _, _, _) => id !in q.messages
    case Deliver(id, at, _, _) => id in q.messages && Due(q.messages[id], at)
  }

  function Step(q: Queue, a: Action): Queue
    requires Possible(q, a)
  {
    match a
    case Owe(id, kind, key, at) => Add(q, id, kind, key, at)
    case Deliver(id, at, handlers, w) => Pass(q, handlers, id, at, w)
  }

  /** Where a run leads, if each of its steps could happen when it did. */
  function Run(q: Queue, actions: seq<Action>): Option<Queue> {
    if actions == [] then Some(q)
    else
      match Run(q, actions[..|actions| - 1])
      case None => None
      case Some(before) =>
        if Possible(before, actions[|actions| - 1]) then Some(Step(before, actions[|actions| - 1])) else None
  }

  lemma {:induction false} RunKeeps(q: Queue, actions: seq<Action>)
    requires Inv(q) && Run(q, actions).Some?
    ensures Inv(Run(q, actions).value)
  {
    if actions != [] {
      var n := |actions| - 1;
      RunKeeps(q, actions[..n]);
      StepKeeps(Run(q, actions[..n]).value, actions[n]);
    }
  }

  lemma StepKeeps(q: Queue, a: Action)
    requires Inv(q) && Possible(q, a)
    ensures Inv(Step(q, a))
  {
    match a
    case Owe(id, kind, key, at) => AddKeeps(q, id, kind, key, at);
    case Deliver(id, at, handlers, w) => PassKeeps(q, handlers, id, at, w);
  }

  predicate Commits(q: Queue, a: Action)
    requires Possible(q, a)
  {
    a.Deliver? && Completes(q, a.handlers, a.id, a.weather)
  }

  /** How many passes committed in a run, on one message or on any. */
  function PassesOn(q: Queue, actions: seq<Action>, id: Option<Id>): nat
    requires Run(q, actions).Some?
  {
    if actions == [] then 0
    else
      var a, before := actions[|actions| - 1], actions[..|actions| - 1];
      PassesOn(q, before, id)
      + if Commits(Run(q, before).value, a) && (id.None? || a.id == id.value) then 1 else 0
  }

  /** The attempt counter counts committed passes, and a delivered message is never
      claimed again. */
  lemma {:induction false} AttemptsCountPasses(q: Queue, actions: seq<Action>, id: Id)
    requires Run(q, actions).Some? && id in q.messages
    ensures var out := Run(q, actions).value;
            && id in out.messages
            && out.messages[id].attempts == q.messages[id].attempts + PassesOn(q, actions, Some(id))
            && (q.messages[id].deliveredAt.Some? ==> out.messages[id] == q.messages[id])
  {
    if actions != [] {
      AttemptsCountPasses(q, actions[..|actions| - 1], id);
    }
  }

  function Owings(actions: seq<Action>): nat {
    if actions == [] then 0
    else Owings(actions[..|actions| - 1]) + if actions[|actions| - 1].Owe? then 1 else 0
  }

  lemma OweAddsAttempts(q: Queue, id: Id, kind: string, key: string, at: int)
    requires id !in q.messages
    ensures Remaining(Add(q, id, kind, key, at)) <= Remaining(q) + MAX_ATTEMPTS
  {
    var m := Message(kind, key, 0, at, None);
    LeftsUpdate(q.messages, id, m);
    Sums.SumMapUpdate(Lefts(q.messages), id, Left(m));
  }

  lemma StepUsesAttempts(q: Queue, a: Action)
    requires Possible(q, a)
    ensures Remaining(Step(q, a)) + (if Commits(q, a) then 1 else 0)
         <= Remaining(q) + (if a.Owe? then MAX_ATTEMPTS else 0)
  {
    match a
    case Owe(id, kind, key, at) => OweAddsAttempts(q, id, kind, key, at);
    case Deliver(id, at, handlers, w) => PassUsesAnAttempt(q, handlers, id, at, w);
  }

  lemma {:induction false} PassesUseAttempts(q: Queue, actions: seq<Action>)
    requires Run(q, actions).Some?
    ensures PassesOn(q, actions, None) + Remaining(Run(q, actions).value)
         <= Remaining(q) + MAX_ATTEMPTS * Owings(actions)
  {
    if actions != [] {
      var n := |actions| - 1;
      PassesUseAttempts(q, actions[..n]);
      StepUsesAttempts(Run(q, actions[..n]).value, actions[n]);
    }
  }

  /** However dispatchers interleave, committed passes never outnumber the attempts
      left plus eight for each message owed since. */
  lemma PassesAreBounded(q: Queue, actions: seq<Action>)
    requires Inv(q) && Run(q, actions).Some?
    ensures PassesOn(q, actions, None) <= Remaining(q) + MAX_ATTEMPTS * Owings(actions)
  {
    PassesUseAttempts(q, actions);
    RunKeeps(q, actions);
    RemainingIsNotNegative(Run(q, actions).value);
  }

  /** In every state a queue reaches from empty: at most one committed pass called the
      transport for a message, and delivered means the transport took it. */
  lemma SentOnceIfDelivered(actions: seq<Action>, id: Id)
    requires Run(EMPTY, actions).Some?
    ensures var out := Run(EMPTY, actions).value;
            && Count(out.calls, id) <= 1
            && (id in out.messages ==> (out.messages[id].deliveredAt.Some? <==> id in out.taken))
  {
    RunKeeps(EMPTY, actions);
  }

  const EMPTY: Queue := Queue(map[], {}, [], {})

  /** Whatever else happens, an effect once asked for is owed by exactly one message, which
      has the kind and the key it was asked under. */
  lemma {:induction false} AskedIsOwed(actions: seq<Action>, k: nat)
    requires Run(EMPTY, actions).Some? && k < |actions| && actions[k].Owe?
    requires actions[k].kind != "" && actions[k].key != ""
    ensures ByOne(Run(EMPTY, actions).value.messages, actions[k].kind, actions[k].key)
  {
    RunKeeps(EMPTY, actions);
    var n := |actions| - 1;
    var kind, key, before := actions[k].kind, actions[k].key, Run(EMPTY, actions[..n]).value;
    RunKeeps(EMPTY, actions[..n]);
    if k == n {
      AddAsks(before, actions[n].id, kind, key, actions[n].at);
    } else {
      AskedIsOwed(actions[..n], k);
      StillOwed(before, actions[n], kind, key);
    }
  }

  lemma StillOwed(q: Queue, a: Action, kind: string, key: string)
    requires Possible(q, a) && exists i :: i in q.messages && Owes(q.messages[i], kind, key)
    requires OwedOnce(Step(q, a).messages)
    ensures ByOne(Step(q, a).messages, kind, key)
  {
    var i :| i in q.messages && Owes(q.messages[i], kind, key);
    assert Owes(Step(q, a).messages[i], kind, key);
  }

  // ---- a refused send is final, and blocks the queue ------------------------------------------------

  /** Logged by a pass whose send the transport refused. */
  predicate Stuck(q: Queue, id: Id) {
    id in q.messages && id in q.log && id !in q.taken
  }

  /** Once stuck a message is never delivered. */
  lemma {:induction false} StuckForGood(q: Queue, actions: seq<Action>, id: Id)
    requires Inv(q) && Run(q, actions).Some? && Stuck(q, id)
    ensures Stuck(Run(q, actions).value, id) && Run(q, actions).value.messages[id].deliveredAt.None?
  {
    RunKeeps(q, actions);
    if actions != [] {
      var n := |actions| - 1;
      RunKeeps(q, actions[..n]);
      StuckForGood(q, actions[..n], id);
    }
  }

  /** The message can be, or has been, delivered. */
  ghost predicate CanArrive(q: Queue, id: Id) {
    exists actions :: Run(q, actions).Some? && id in Run(q, actions).value.taken
  }

  /** A message can still arrive exactly when it has, or has attempts left and is not
      stuck. */
  lemma ArrivesUnlessStuck(q: Queue, id: Id)
    requires Inv(q) && id in q.messages
    ensures CanArrive(q, id) <==> id in q.taken || (!Stuck(q, id) && q.messages[id].attempts < MAX_ATTEMPTS)
  {
    var m := q.messages[id];
    if id in q.taken {
      assert Run(q, []) == Some(q);
    } else if !Stuck(q, id) && m.attempts < MAX_ATTEMPTS {
      var a := Deliver(id, m.availableAt, {m.kind}, Weather(true, true, true));
      assert [a][..0] == [];
      assert Run(q, [a]) == Some(Step(q, a));
      assert id in Run(q, [a]).value.taken;
    } else {
      forall actions | Run(q, actions).Some? ensures id !in Run(q, actions).value.taken {
        NeverTaken(q, actions, id);
      }
    }
  }

  lemma {:induction false} NeverTaken(q: Queue, actions: seq<Action>, id: Id)
    requires Inv(q) && Run(q, actions).Some? && id in q.messages && id !in q.taken
    requires Stuck(q, id) || q.messages[id].attempts == MAX_ATTEMPTS
    ensures id !in Run(q, actions).value.taken
  {
    if Stuck(q, id) {
      StuckForGood(q, actions, id);
    } else if actions != [] {
      var n := |actions| - 1;
      NeverTaken(q, actions[..n], id);
      AttemptsCountPasses(q, actions[..n], id);
    }
  }

  /** A due message whose mail renders is claimed in vain, whatever the transport would
      say, exactly when it is stuck. */
  lemma StallsExactlyWhenStuck(q: Queue, handlers: set<string>, id: Id, now: int)
    requires Inv(q) && id in q.messages && Due(q.messages[id], now) && q.messages[id].kind in handlers
    ensures (forall w: Weather | w.renders :: Pass(q, handlers, id, now, w) == q) <==> Stuck(q, id)
  {
    var fair := Weather(true, true, true);
    if !Stuck(q, id) {
      assert Pass(q, handlers, id, now, fair) != q;
    }
  }

  function Repeated(a: Action, n: nat): (run: seq<Action>)
    ensures |run| == n
  {
    if n == 0 then [] else Repeated(a, n - 1) + [a]
  }

  /** So there is no bound on how often it is claimed: neither its attempts nor its
      time move. */
  lemma {:induction false} RetriesWithoutBound(q: Queue, id: Id, at: int, handlers: set<string>, w: Weather, n: nat)
    requires Inv(q) && Stuck(q, id) && Due(q.messages[id], at) && ReachesTheLog(q, handlers, id, w)
    ensures Run(q, Repeated(Deliver(id, at, handlers, w), n)) == Some(q)
  {
    if n > 0 {
      RetriesWithoutBound(q, id, at, handlers, w, n - 1);
      var run := Repeated(Deliver(id, at, handlers, w), n);
      assert run[..n - 1] == Repeated(Deliver(id, at, handlers, w), n - 1);
    }
  }

  /** Each pass claims, from where the run has got to, the longest-due message that is
      not busy. */
  ghost predicate Orderly(q: Queue, run: seq<Action>, busy: nat -> set<Id>) {
    forall k: nat | k < |run| ::
      && run[k].Deliver? && Run(q, run[..k]).Some?
      && Next(Run(q, run[..k]).value.messages, busy(k), run[k].at, run[k].id)
  }

  lemma OrderlyPrefix(q: Queue, run: seq<Action>, busy: nat -> set<Id>, n: nat)
    requires Orderly(q, run, busy) && n <= |run|
    ensures Orderly(q, run[..n], busy)
  {
    forall k: nat | k < n ensures run[..n][..k] == run[..k] {
    }
  }

  ghost predicate Same(q: Queue, out: Queue, id: Id) {
    id in q.messages && id in out.messages && out.messages[id] == q.messages[id]
  }

  /** The message is due and could be claimed, and its mail would render. */
  ghost predicate InTheWay(m: Message, id: Id, busy: set<Id>, a: Action) {
    && a.Deliver? && id !in busy && a.at >= m.availableAt && m.attempts < MAX_ATTEMPTS
    && m.kind in a.handlers && a.weather.renders
  }

  lemma StuckGoesFirst(q: Queue, a: Action, busy: set<Id>, id: Id, o: Id)
    requires Inv(q) && Stuck(q, id) && InTheWay(q.messages[id], id, busy, a)
    requires o in q.messages && q.messages[id].availableAt < q.messages[o].availableAt
    requires Next(q.messages, busy, a.at, a.id)
    ensures Possible(q, a) && Same(q, Step(q, a), id) && Same(q, Step(q, a), o)
  {
    assert Due(q.messages[id], a.at);
    PassCountsOnce(q, a.handlers, a.id, a.at, a.weather);
  }

  /** While a stuck message whose mail renders is due and not busy, no message due
      later than it is touched. */
  lemma {:induction false} NothingLaterGoesOut(q: Queue, run: seq<Action>, busy: nat -> set<Id>, id: Id, o: Id)
    requires Inv(q) && Stuck(q, id)
    requires o in q.messages && q.messages[id].availableAt < q.messages[o].availableAt
    requires Run(q, run).Some? && Orderly(q, run, busy)
    requires forall k: nat | k < |run| :: InTheWay(q.messages[id], id, busy(k), run[k])
    ensures Same(q, Run(q, run).value, o) && Same(q, Run(q, run).value, id)
  {
    if run != [] {
      var n := |run| - 1;
      OrderlyPrefix(q, run, busy, n);
      NothingLaterGoesOut(q, run[..n], busy, id, o);
      StuckForGood(q, run[..n], id);
      RunKeeps(q, run[..n]);
      StuckGoesFirst(Run(q, run[..n]).value, run[n], busy(n), id, o);
    }
  }

  /** Two mails owed; the transport refuses the first, then works again. The first is
      claimed at every turn from then on and never goes, and the second, owed later,
      is not reached. */
  lemma RefusedSendBlocksTheQueue(w: Weather)
    requires w.renders
    ensures var q := Queue(map[1 := Message("mail", "a", 0, 0, None), 2 := Message("mail", "b", 0, 100, None)],
                           {}, [], {});
            var refused := Pass(q, {"mail"}, 1, 0, Weather(true, false, true));
            && Inv(q) && Next(q.messages, {}, 0, 1) && Stuck(refused, 1)
            && Next(refused.messages, {}, 200, 1) && !Next(refused.messages, {}, 200, 2)
            && Due(refused.messages[2], 200) && Pass(refused, {"mail"}, 1, 200, w) == refused
  {
  }

  // ---- the dispatcher --------------------------------------------------------------------------------

  class Dispatcher {
    const handlers: set<string>
    var messages: map<Id, Message>
    var log: set<Id>
    ghost var calls: seq<Id>
    ghost var taken: set<Id>

    ghost function State(): Queue
      reads this
    {
      Queue(messages, log, calls, taken)
    }

    constructor (registered: set<string>)
      ensures handlers == registered && State() == Queue(map[], {}, [], {})
    {
      handlers, messages, log, calls, taken := registered, map[], {}, [], {};
    }

    method Enqueue(id: Id, kind: string, key: string, now: int) returns (ok: bool)
      requires id !in messages
      modifies this`messages
      ensures State() == Add(old(State()), id, kind, key, now)
      ensures ok <==> kind != "" && key != ""
      ensures !ok ==> State() == old(State())
      ensures ok ==> Asked(old(messages), messages, id, kind, key, now)
    {
      if kind == "" || key == "" {
        return false;
      }
      if !Owed(messages, kind, key) {
        messages := messages[id := Message(kind, key, 0, now, None)];
      }
      AddAsks(old(State()), id, kind, key, now);
      return true;
    }

    /** Claims the longest-due message no other dispatcher is working on, and runs one
        pass on it. */
    method One(now: int, busy: set<Id>, w: Weather) returns (claimed: bool, failed: bool, ghost id: Id)
      modifies this
      ensures claimed || failed ==>
                && Next(old(messages), busy, now, id)
                && State() == Pass(old(State()), handlers, id, now, w)
                && claimed == Completes(old(State()), handlers, id, w) == !failed
      ensures !claimed && !failed ==> State() == old(State())
      ensures !claimed && !failed <==> forall o | o in old(messages) && o !in busy :: !Due(old(messages)[o], now)
    {
      var due := set o | o in messages && o !in busy && Due(messages[o], now);
      if due == {} {
        assert forall o | o in messages && o !in busy && Due(messages[o], now) :: o in due;
        return false, false, 0;
      }
      ghost var some :| some in due;
      ghost var best := NextExists(messages, busy, now, due, some);
      assert Next(messages, busy, now, best);
      var next :| next in messages && Next(messages, busy, now, next);
      id := next;
      var m := messages[next];
      var handled := m.kind in handlers && w.renders;
      claimed := w.commits && !(handled && next in log);
      failed := !claimed;
      if claimed {
        if !handled {
          messages := messages[next := Failed(m, now)];
        } else {
          log := log + {next};
          calls := calls + [next];
          taken := if w.sends then taken + {next} else taken;
          messages := messages[next := if w.sends then Delivered(m, now) else Failed(m, now)];
        }
      }
    }

    /** Up to a batch of passes, each on the longest-due message that is not busy. The
        count it reports is of passes that committed, whether or not they delivered; it
        stops early only at an error or when nothing it may claim is due. */
    method Drain(times: nat -> int, busy: nat -> set<Id>, weather: nat -> Weather)
      returns (delivered: nat, failed: bool, ghost run: seq<Action>)
      requires Inv(State())
      modifies this
      ensures Inv(State())
      ensures Drained(old(State()), State(), run, handlers, times, busy, weather)
      ensures Counted(old(State()), run, delivered, failed) && delivered <= 20
      ensures Remaining(State()) + delivered <= Remaining(old(State()))
      ensures !failed && delivered < 20 ==>
                forall o | o in messages && o !in busy(delivered) :: !Due(messages[o], times(delivered))
    {
      ghost var start := State();
      delivered, failed, run := 0, false, [];
      while delivered < BATCH_SIZE && !failed
        invariant delivered <= BATCH_SIZE
        invariant Drained(start, State(), run, handlers, times, busy, weather)
        invariant Counted(start, run, delivered, failed)
        decreases BATCH_SIZE - delivered, !failed
      {
        ghost var before := State();
        var claimed, broke, id := One(times(delivered), busy(delivered), weather(delivered));
        if !claimed && !broke {
          break;
        }
        ghost var a := Deliver(id, times(delivered), handlers, weather(delivered));
        OneMorePass(start, before, run, a, handlers, times, busy, weather);
        run := run + [a];
        failed := broke;
        delivered := delivered + if claimed then 1 else 0;
      }
      DrainEnds(start, State(), run, handlers, times, busy, weather);
    }
  }

  /** The count is of the passes that committed; only the last may not have. */
  ghost predicate Counted(q: Queue, run: seq<Action>, delivered: nat, failed: bool) {
    && |run| == (delivered + if failed then 1 else 0) && Committed(q, run, delivered)
    && Run(q, run).Some? && PassesOn(q, run, None) == delivered
  }

  /** The first n passes of the run committed. */
  ghost predicate Committed(q: Queue, run: seq<Action>, n: nat) {
    n <= |run| && forall k: nat | k < n :: CommittedAt(q, run, k)
  }

  ghost predicate CommittedAt(q: Queue, run: seq<Action>, k: nat)
    requires k < |run|
  {
    && Run(q, run[..k]).Some? && Possible(Run(q, run[..k]).value, run[k])
    && Commits(Run(q, run[..k]).value, run[k])
  }

  lemma DrainEnds(start: Queue, end: Queue, run: seq<Action>, handlers: set<string>, times: nat -> int,
                  busy: nat -> set<Id>, weather: nat -> Weather)
    requires Inv(start) && Drained(start, end, run, handlers, times, busy, weather)
    ensures Inv(end) && Remaining(end) + PassesOn(start, run, None) <= Remaining(start)
  {
    RunKeeps(start, run);
    PassesUseAttempts(start, run);
    NothingOwed(start, run, busy);
  }

  /** When a stuck message is the longest due and not busy, a drain fails at once, has
      delivered nothing and leaves the queue as it was: what every later one will find. */
  lemma DrainFailsAtTheStuck(start: Queue, end: Queue, run: seq<Action>, handlers: set<string>, times: nat -> int,
                             busy: nat -> set<Id>, weather: nat -> Weather, delivered: nat, failed: bool, id: Id)
    requires Inv(start) && Drained(start, end, run, handlers, times, busy, weather)
    requires Counted(start, run, delivered, failed)
    requires !failed && delivered < 20 ==>
               forall o | o in end.messages && o !in busy(delivered) :: !Due(end.messages[o], times(delivered))
    requires Stuck(start, id) && id !in busy(0) && Due(start.messages[id], times(0))
    requires start.messages[id].kind in handlers && weather(0).renders
    requires forall o | o in start.messages && o !in busy(0) && o != id && Due(start.messages[o], times(0)) ::
               start.messages[id].availableAt < start.messages[o].availableAt
    ensures failed && delivered == 0 && end == start
  {
    if run != [] {
      assert run[0].id == id;
      FirstPassFails(start, run, id);
      assert delivered == 0 && run == [run[0]];
      assert run[..0] == [];
    }
  }

  lemma FirstPassFails(start: Queue, run: seq<Action>, id: Id)
    requires run != [] && run[0].Deliver? && run[0].id == id && Stuck(start, id)
    requires start.messages[id].kind in run[0].handlers && run[0].weather.renders
    ensures !CommittedAt(start, run, 0)
    ensures Possible(start, run[0]) ==> Step(start, run[0]) == start
  {
    assert run[..0] == [];
  }

  /** The run leads from one queue to the other, orderly, at these times and in this
      weather. */
  ghost predicate Drained(start: Queue, end: Queue, run: seq<Action>, handlers: set<string>, times: nat -> int,
                          busy: nat -> set<Id>, weather: nat -> Weather)
  {
    && Run(start, run) == Some(end) && Orderly(start, run, busy)
    && forall k: nat | k < |run| ::
         run[k].at == times(k) && run[k].weather == weather(k) && run[k].handlers == handlers
  }

  lemma OneMorePass(start: Queue, before: Queue, run: seq<Action>, a: Action, handlers: set<string>,
                    times: nat -> int, busy: nat -> set<Id>, weather: nat -> Weather)
    requires Drained(start, before, run, handlers, times, busy, weather)
    requires a.Deliver? && Next(before.messages, busy(|run|), a.at, a.id)
    requires a.at == times(|run|) && a.weather == weather(|run|) && a.handlers == handlers
    requires Counted(start, run, |run|, false)
    ensures Drained(start, Pass(before, handlers, a.id, a.at, a.weather), run + [a], handlers, times, busy, weather)
    ensures var done := Completes(before, handlers, a.id, a.weather);
            Counted(start, run + [a], |run| + (if done then 1 else 0), !done)
  {
    var more := run + [a];
    assert more[..|run|] == run;
    assert Run(start, more) == Some(Step(before, a));
    forall k: nat | k < |more|
      ensures more[k].Deliver? && Run(start, more[..k]).Some?
      ensures Next(Run(start, more[..k]).value.messages, busy(k), more[k].at, more[k].id)
    {
      if k < |run| {
        assert more[..k] == run[..k] && more[k] == run[k];
      }
    }
    forall k: nat | k < |run| ensures CommittedAt(start, more, k) {
      assert more[..k] == run[..k] && CommittedAt(start, run, k);
    }
  }

  lemma {:induction false} NothingOwed(q: Queue, run: seq<Action>, busy: nat -> set<Id>)
    requires Orderly(q, run, busy)
    ensures Owings(run) == 0
  {
    if run != [] {
      OrderlyPrefix(q, run, busy, |run| - 1);
      NothingOwed(q, run[..|run| - 1], busy);
    }
  }
}
