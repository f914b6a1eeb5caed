/**
 The Amadeus bearer-token manager under asyncio: double-checked caching around one lock.

 Tasks run atomically between awaits. Each method of the class is one such atomic segment; `Step` gives the same
 segments on values, so that whole interleavings can be reasoned about. Waiting tasks may get the lock in any order.
 */
module TokenManager {
  import opened Wrappers

  const REFRESH_BUFFER := 60.0

  type Task = nat

  datatype Cached = Cached(token: string, expiresAt: real)

  /** Where a task is: outside, waiting for the lock in `get_token` or `invalidate`, or awaiting the token POST. */
  datatype Pc = Idle | WantsToken | WantsDrop | Posting

  datatype Event =
    | PostStarted(time: real)
    | PostSucceeded(token: string, lifetime: real, time: real)
    | PostFailed(time: real)
    | Dropped(time: real)
    | ServedFromCache(token: string, time: real)
    | ServedFromPost(token: string, time: real)

  datatype State = State(now: real, cached: Option<Cached>, holder: Option<Task>, pcs: map<Task, Pc>, log: seq<Event>) {
    function PcOf(t: Task): Pc {
      if t in pcs then pcs[t] else Idle
    }
  }

  const INITIAL := State(0.0, None, None, map[], [])

  predicate Fresh(cached: Option<Cached>, now: real) {
    cached.Some? && cached.value.expiresAt - REFRESH_BUFFER > now
  }

  // ---- atomic segments on values ----

  datatype Action =
    | Tick(seconds: real)
    | AskToken(task: Task)
    | EnterLocked(task: Task)
    | PostReply(task: Task, reply: Option<(string, real)>)
    | AskDrop(task: Task)
    | DropLocked(task: Task)
    | CancelWait(task: Task)

  predicate Enabled(s: State, a: Action) {
    match a
    case Tick(d) => d >= 0.0
    case AskToken(t) => s.PcOf(t) == Idle
    case EnterLocked(t) => s.PcOf(t) == WantsToken && s.holder.None?
    case PostReply(t, _) => s.PcOf(t) == Posting
    case AskDrop(t) => s.PcOf(t) == Idle
    case DropLocked(t) => s.PcOf(t) == WantsDrop && s.holder.None?
    case CancelWait(t) => s.PcOf(t) == WantsToken || s.PcOf(t) == WantsDrop
  }

  function Step(s: State, a: Action): State
    requires Enabled(s, a)
  {
    match a
    case Tick(d) => s.(now := s.now + d)
    case AskToken(t) =>
      if Fresh(s.cached, s.now) then s.(log := s.log + [ServedFromCache(s.cached.value.token, s.now)])
      else s.(pcs := s.pcs[t := WantsToken])
    case EnterLocked(t) =>
      if Fresh(s.cached, s.now) then
        s.(pcs := s.pcs[t := Idle], log := s.log + [ServedFromCache(s.cached.value.token, s.now)])
      else s.(holder := Some(t), pcs := s.pcs[t := Posting], log := s.log + [PostStarted(s.now)])
    case PostReply(t, None) =>
      s.(holder := None, pcs := s.pcs[t := Idle], log := s.log + [PostFailed(s.now)])
    case PostReply(t, Some((token, lifetime))) =>
      s.(cached := Some(Cached(token, s.now + lifetime)), holder := None, pcs := s.pcs[t := Idle],
         log := s.log + [PostSucceeded(token, lifetime, s.now), ServedFromPost(token, s.now)])
    case AskDrop(t) => s.(pcs := s.pcs[t := WantsDrop])
    case DropLocked(t) => s.(cached := None, pcs := s.pcs[t := Idle], log := s.log + [Dropped(s.now)])
    case CancelWait(t) => s.(pcs := s.pcs[t := Idle])
  }

  /** Any interleaving of callers, replies, cancellations and passing time. */
  predicate IsRun(states: seq<State>, actions: seq<Action>) {
    && |states| == |actions| + 1
    && states[0] == INITIAL
    && forall i :: 0 <= i < |actions| ==> Enabled(states[i], actions[i]) && states[i + 1] == Step(states[i], actions[i])
  }

  // ---- the manager ----

  class Manager {
    var cached: Option<Cached>
    var holder: Option<Task>
    var pcs: map<Task, Pc>
    var now: real
    ghost var log: seq<Event>

    ghost function View(): State
      reads this
    {
      State(now, cached, holder, pcs, log)
    }

    constructor ()
      ensures View() == INITIAL
    {
      cached, holder, pcs, now := None, None, map[], 0.0;
      log := [];
    }

    /** `get_token` up to its first await: serve from cache, or queue for the lock. */
    method AskForToken(t: Task) returns (token: Option<string>)
      requires View().PcOf(t) == Idle
      modifies this
      ensures View() == Step(old(View()), AskToken(t))
      ensures token == if old(Fresh(cached, now)) then Some(old(cached).value.token) else None
    {
      if Fresh(cached, now) {
        token := Some(cached.value.token);
        log := log + [ServedFromCache(cached.value.token, now)];
      } else {
        token := None;
        pcs := pcs[t := WantsToken];
      }
    }

    /** Holding the lock: check the cache again, else send the token POST and keep the lock. */
    method RunLocked(t: Task) returns (token: Option<string>)
      requires View().PcOf(t) == WantsToken && holder.None?
      modifies this
      ensures View() == Step(old(View()), EnterLocked(t))
      ensures token == if old(Fresh(cached, now)) then Some(old(cached).value.token) else None
    {
      if Fresh(cached, now) {
        token := Some(cached.value.token);
        pcs := pcs[t := Idle];
        log := log + [ServedFromCache(cached.value.token, now)];
      } else {
        token := None;
        holder := Some(t);
        pcs := pcs[t := Posting];
        log := log + [PostStarted(now)];
      }
    }

    /** The POST returned or raised: store the token if there is one, and release the lock. */
    method FinishPost(t: Task, reply: Option<(string, real)>) returns (token: Option<string>)
      requires View().PcOf(t) == Posting
      modifies this
      ensures View() == Step(old(View()), PostReply(t, reply))
      ensures token == if reply.Some? then Some(reply.value.0) else None
    {
      holder := None;
      pcs := pcs[t := Idle];
      if reply.Some? {
        var (access, lifetime) := reply.value;
        cached := Some(Cached(access, now + lifetime));
        token := Some(access);
        log := log + [PostSucceeded(access, lifetime, now), ServedFromPost(access, now)];
      } else {
        token := None;
        log := log + [PostFailed(now)];
      }
    }

    /** `invalidate` once it has the lock. */
    method Invalidate(t: Task)
      requires View().PcOf(t) == WantsDrop && holder.None?
      modifies this
      ensures View() == Step(old(View()), DropLocked(t))
    {
      cached := None;
      pcs := pcs[t := Idle];
      log := log + [Dropped(now)];
    }
  }

  // ---- what the log says ----

  /** The cache as the log alone determines it. */
  function CacheAfter(log: seq<Event>): Option<Cached> {
    if log == [] then None
    else
      match log[|log| - 1]
      case PostSucceeded(token, lifetime, time) => Some(Cached(token, time + lifetime))
      case Dropped(_) => None
      case _ => CacheAfter(log[..|log| - 1])
  }

  /** A token POST has started and not yet ended. */
  predicate InFlight(log: seq<Event>) {
    log != [] &&
    match log[|log| - 1]
    case PostStarted(_) => true
    case PostSucceeded(_, _, _) => false
    case PostFailed(_) => false
    case _ => InFlight(log[..|log| - 1])
  }

  /** An event is in order after the events before it. */
  predicate InOrder(before: seq<Event>, e: Event) {
    && (before != [] ==> before[|before| - 1].time <= e.time)
    && match e {
         case PostStarted(time) => !InFlight(before) && !Fresh(CacheAfter(before), time)
         case PostSucceeded(_, _, _) => InFlight(before)
         case PostFailed(_) => InFlight(before)
         case Dropped(_) => !InFlight(before)
         case ServedFromCache(token, time) =>
           Fresh(CacheAfter(before), time) && CacheAfter(before).value.token == token
         case ServedFromPost(token, _) => CacheAfter(before).Some? && CacheAfter(before).value.token == token
       }
  }

  predicate Orderly(log: seq<Event>) {
    log == [] || (Orderly(log[..|log| - 1]) && InOrder(log[..|log| - 1], log[|log| - 1]))
  }

  predicate Invariant(s: State) {
    && Orderly(s.log)
    && s.cached == CacheAfter(s.log)
    && InFlight(s.log) == s.holder.Some?
    && (s.log != [] ==> s.log[|s.log| - 1].time <= s.now)
    && (forall t :: t in s.pcs && s.pcs[t] == Posting ==> s.holder == Some(t))
    && (s.holder.Some? ==> s.PcOf(s.holder.value) == Posting)
  }

  lemma Append(log: seq<Event>, e: Event)
    requires Orderly(log) && InOrder(log, e)
    ensures Orderly(log + [e])
    ensures CacheAfter(log + [e]) == match e {
              case PostSucceeded(token, lifetime, time) => Some(Cached(token, time + lifetime))
              case Dropped(_) => None
              case _ => CacheAfter(log) }
    ensures InFlight(log + [e]) == match e {
              case PostStarted(_) => true
              case PostSucceeded(_, _, _) => false
              case PostFailed(_) => false
              case _ => InFlight(log) }
  {
    assert (log + [e])[..|log|] == log;
  }

  lemma AskKeepsInvariant(s: State, t: Task)
    requires Invariant(s) && Enabled(s, AskToken(t))
    ensures Invariant(Step(s, AskToken(t)))
  {
    if Fresh(s.cached, s.now) {
      Append(s.log, ServedFromCache(s.cached.value.token, s.now));
    }
  }

  lemma EnterKeepsInvariant(s: State, t: Task)
    requires Invariant(s) && Enabled(s, EnterLocked(t))
    ensures Invariant(Step(s, EnterLocked(t)))
  {
    if Fresh(s.cached, s.now) {
      Append(s.log, ServedFromCache(s.cached.value.token, s.now));
    } else {
      Append(s.log, PostStarted(s.now));
    }
  }

  lemma FailureKeepsInvariant(s: State, t: Task)
    requires Invariant(s) && Enabled(s, PostReply(t, None))
    ensures Invariant(Step(s, PostReply(t, None)))
  {
    Append(s.log, PostFailed(s.now));
  }

  lemma SuccessKeepsInvariant(s: State, t: Task, token: string, lifetime: real)
    requires Invariant(s) && Enabled(s, PostReply(t, Some((token, lifetime))))
    ensures Invariant(Step(s, PostReply(t, Some((token, lifetime)))))
  {
    var e, f := PostSucceeded(token, lifetime, s.now), ServedFromPost(token, s.now);
    Append(s.log, e);
    Append(s.log + [e], f);
    assert s.log + [e, f] == s.log + [e] + [f];
  }

  lemma DropKeepsInvariant(s: State, t: Task)
    requires Invariant(s) && Enabled(s, DropLocked(t))
    ensures Invariant(Step(s, DropLocked(t)))
  {
    Append(s.log, Dropped(s.now));
  }

  lemma StepKeepsInvariant(s: State, a: Action)
    requires Invariant(s) && Enabled(s, a)
    ensures Invariant(Step(s, a))
  {
    match a
    case AskToken(t) => AskKeepsInvariant(s, t);
    case EnterLocked(t) => EnterKeepsInvariant(s, t);
    case PostReply(t, None) => FailureKeepsInvariant(s, t);
    case PostReply(t, Some((token, lifetime))) => SuccessKeepsInvariant(s, t, token, lifetime);
    case DropLocked(t) => DropKeepsInvariant(s, t);
    case Tick(_) =>
    case AskDrop(_) =>
    case CancelWait(_) =>
  }

  lemma {:induction false} RunKeepsInvariant(states: seq<State>, actions: seq<Action>, k: nat)
    requires IsRun(states, actions) && k < |states|
    ensures Invariant(states[k])
  {
    if k > 0 {
      RunKeepsInvariant(states, actions, k - 1);
      StepKeepsInvariant(states[k - 1], actions[k - 1]);
    }
  }

  // ---- theorems over every interleaving ----

  /** At most one token request is in flight, and only its task holds the lock. */
  lemma AtMostOnePost(states: seq<State>, actions: seq<Action>, k: nat, t: Task, u: Task)
    requires IsRun(states, actions) && k < |states|
    requires states[k].PcOf(t) == Posting && states[k].PcOf(u) == Posting
    ensures t == u && states[k].holder == Some(t)
  {
    RunKeepsInvariant(states, actions, k);
  }

  lemma {:induction false} OrderlyPrefix(log: seq<Event>, j: nat)
    requires Orderly(log) && j < |log|
    ensures Orderly(log[..j]) && InOrder(log[..j], log[j])
  {
    var n := |log| - 1;
    if j < n {
      OrderlyPrefix(log[..n], j);
      assert log[..n][..j] == log[..j];
    }
  }

  /** Nothing changed the cache strictly between two places in the log. */
  predicate Untouched(log: seq<Event>, i: int, j: int)
    requires 0 <= i < j <= |log|
  {
    forall k :: i < k < j ==> !log[k].PostSucceeded? && !log[k].Dropped?
  }

  /** A cached token goes back to the last successful POST, with nothing in between. */
  lemma {:induction false} CacheOrigin(log: seq<Event>) returns (i: nat)
    requires CacheAfter(log).Some?
    ensures i < |log| && log[i].PostSucceeded? && Untouched(log, i, |log|)
    ensures CacheAfter(log) == Some(Cached(log[i].token, log[i].time + log[i].lifetime))
  {
    var n := |log| - 1;
    if log[n].PostSucceeded? {
      i := n;
    } else {
      i := CacheOrigin(log[..n]);
      assert Untouched(log[..n], i, n);
      forall k | i < k < |log|
        ensures !log[k].PostSucceeded? && !log[k].Dropped?
      {
        if k < n {
          assert log[..n][k] == log[k];
        }
      }
    }
  }

  /** A token served from cache was issued by an earlier POST, not dropped since, and has over 60 seconds to run. */
  lemma ServedTokensAreFresh(states: seq<State>, actions: seq<Action>, k: nat, j: nat) returns (i: nat)
    requires IsRun(states, actions) && k < |states| && j < |states[k].log| && states[k].log[j].ServedFromCache?
    ensures var log := states[k].log;
            && i < j && log[i].PostSucceeded? && Untouched(log, i, j)
            && log[j].token == log[i].token
            && log[i].time + log[i].lifetime - log[j].time > 60.0
  {
    var log := states[k].log;
    RunKeepsInvariant(states, actions, k);
    OrderlyPrefix(log, j);
    i := CacheOrigin(log[..j]);
    assert Untouched(log[..j], i, j);
    forall m | i < m < j
      ensures !log[m].PostSucceeded? && !log[m].Dropped?
    {
      assert log[..j][m] == log[m];
    }
  }

  lemma {:induction false} QuietAfterSuccess(log: seq<Event>, i: nat, j: nat)
    requires Orderly(log) && i < j <= |log| && log[i].PostSucceeded?
    requires forall k :: i < k < j ==> !log[k].PostStarted?
    ensures !InFlight(log[..j])
    ensures forall k :: i < k < j ==> !log[k].PostSucceeded?
  {
    if j == i + 1 {
    } else {
      QuietAfterSuccess(log, i, j - 1);
      OrderlyPrefix(log, j - 1);
      assert log[..j][..j - 1] == log[..j - 1];
    }
  }

  lemma {:induction false} CacheSurvives(log: seq<Event>, i: nat, j: nat)
    requires i < j <= |log| && log[i].PostSucceeded? && Untouched(log, i, j)
    ensures CacheAfter(log[..j]) == Some(Cached(log[i].token, log[i].time + log[i].lifetime))
  {
    if j > i + 1 {
      CacheSurvives(log, i, j - 1);
      assert log[..j][..j - 1] == log[..j - 1];
    }
  }

  /**
   After a successful POST with lifetime E at time T, the next token POST starts only after an `invalidate`,
   or at time T + E - 60 or later.
   */
  lemma NextPostWaits(states: seq<State>, actions: seq<Action>, k: nat, i: nat, j: nat)
    requires IsRun(states, actions) && k < |states| && i < j < |states[k].log|
    requires states[k].log[i].PostSucceeded? && states[k].log[j].PostStarted?
    requires forall m :: i < m < j ==> !states[k].log[m].PostStarted?
    ensures var log := states[k].log;
            || (exists m :: i < m < j && log[m].Dropped?)
            || log[j].time >= log[i].time + log[i].lifetime - 60.0
  {
    var log := states[k].log;
    RunKeepsInvariant(states, actions, k);
    QuietAfterSuccess(log, i, j);
    OrderlyPrefix(log, j);
    if forall m :: i < m < j ==> !log[m].Dropped? {
      CacheSurvives(log, i, j);
    }
  }

  /** Between two token POSTs the first one has ended. */
  lemma PostsDoNotOverlap(states: seq<State>, actions: seq<Action>, k: nat, i: nat, j: nat)
    requires IsRun(states, actions) && k < |states| && i < j < |states[k].log|
    requires states[k].log[i].PostStarted? && states[k].log[j].PostStarted?
    ensures exists m :: i < m < j && (states[k].log[m].PostSucceeded? || states[k].log[m].PostFailed?)
  {
    var log := states[k].log;
    RunKeepsInvariant(states, actions, k);
    OrderlyPrefix(log, j);
    EndedBetween(log, i, j);
  }

  lemma {:induction false} EndedBetween(log: seq<Event>, i: nat, j: nat)
    requires Orderly(log) && i < j <= |log| && log[i].PostStarted? && !InFlight(log[..j])
    ensures exists m :: i < m < j && (log[m].PostSucceeded? || log[m].PostFailed?)
  {
    var e := log[j - 1];
    assert log[..j][..j - 1] == log[..j - 1];
    if i < j - 1 && !e.PostSucceeded? && !e.PostFailed? {
      EndedBetween(log, i, j - 1);
    }
  }

  // ---- what the calls achieve ----

  /** A cached token with more than a minute to run. */
  predicate HasMinuteLeft(s: State) {
    s.cached.Some? && s.cached.value.expiresAt - s.now > 60.0
  }

  /** `get_token` without the lock: serves a cached token with a minute left at once, else queues for the lock. */
  lemma AskingServesOrWaits(states: seq<State>, actions: seq<Action>, k: nat, t: Task)
    requires IsRun(states, actions) && k < |actions| && actions[k] == AskToken(t)
    ensures var s, u := states[k], states[k + 1];
            && u.cached == s.cached && u.holder == s.holder && u.now == s.now
            && (HasMinuteLeft(s) ==>
                  u.PcOf(t) == Idle && u.log == s.log + [ServedFromCache(s.cached.value.token, s.now)])
            && (!HasMinuteLeft(s) ==> u.PcOf(t) == WantsToken && u.log == s.log)
  {
  }

  /** `get_token` under the lock: serves a token fetched meanwhile, else the token POST is in flight. */
  lemma EnteringServesOrPosts(states: seq<State>, actions: seq<Action>, k: nat, t: Task)
    requires IsRun(states, actions) && k < |actions| && actions[k] == EnterLocked(t)
    ensures var s, u := states[k], states[k + 1];
            && u.cached == s.cached && u.now == s.now
            && (HasMinuteLeft(s) ==>
                  && u.PcOf(t) == Idle && u.holder.None?
                  && u.log == s.log + [ServedFromCache(s.cached.value.token, s.now)])
            && (!HasMinuteLeft(s) ==>
                  u.PcOf(t) == Posting && u.holder == Some(t) && u.log == s.log + [PostStarted(s.now)])
  {
  }

  /** The answer to the POST: a token is cached until its lifetime ends and served; a failure leaves the cache alone. */
  lemma ReplyIsCached(states: seq<State>, actions: seq<Action>, k: nat, t: Task, reply: Option<(string, real)>)
    requires IsRun(states, actions) && k < |actions| && actions[k] == PostReply(t, reply)
    ensures var s, u := states[k], states[k + 1];
            && u.holder.None? && u.PcOf(t) == Idle && u.now == s.now
            && (reply.None? ==> u.cached == s.cached && u.log == s.log + [PostFailed(s.now)])
            && (reply.Some? ==>
                  var (token, lifetime) := reply.value;
                  && u.cached == Some(Cached(token, s.now + lifetime))
                  && u.log == s.log + [PostSucceeded(token, lifetime, s.now), ServedFromPost(token, s.now)])
  {
  }

  /** `invalidate` queues for the lock; giving up a place in the queue and passing time change nothing else. */
  lemma WaitingChangesNothing(states: seq<State>, actions: seq<Action>, k: nat)
    requires IsRun(states, actions) && k < |actions|
    requires actions[k].AskDrop? || actions[k].CancelWait? || actions[k].Tick?
    ensures var s, u := states[k], states[k + 1];
            && u.cached == s.cached && u.holder == s.holder && u.log == s.log
            && (actions[k].AskDrop? ==> u.PcOf(actions[k].task) == WantsDrop)
            && (actions[k].CancelWait? ==> u.PcOf(actions[k].task) == Idle)
            && u.now == s.now + if actions[k].Tick? then actions[k].seconds else 0.0
  {
  }

  /** `invalidate` empties the cache. */
  lemma InvalidateEmptiesCache(states: seq<State>, actions: seq<Action>, k: nat, t: Task)
    requires IsRun(states, actions) && k < |actions| && actions[k] == DropLocked(t)
    ensures states[k + 1].cached.None? && states[k + 1].log == states[k].log + [Dropped(states[k].now)]
    ensures states[k + 1].PcOf(t) == Idle && states[k + 1].holder.None?
  {
  }

  lemma {:induction false} LogGrows(states: seq<State>, actions: seq<Action>, j: nat, k: nat)
    requires IsRun(states, actions) && j <= k < |states|
    ensures states[j].log <= states[k].log
  {
    if j < k {
      LogGrows(states, actions, j, k - 1);
    }
  }

  /**
   A dropped token is gone for good: after an `invalidate` at step k, every token served from cache comes from a
   token POST that succeeded after that `invalidate`.
   */
  lemma DroppedTokenIsNotServed(states: seq<State>, actions: seq<Action>, k: nat, n: nat, j: nat) returns (i: nat)
    requires IsRun(states, actions) && k < n < |states| && actions[k].DropLocked?
    requires |states[k].log| <= j < |states[n].log| && states[n].log[j].ServedFromCache?
    ensures var log := states[n].log;
            |states[k].log| < i < j && log[i].PostSucceeded? && log[i].token == log[j].token
  {
    var log, d := states[n].log, |states[k].log|;
    InvalidateEmptiesCache(states, actions, k, actions[k].task);
    LogGrows(states, actions, k + 1, n);
    assert log[d] == states[k + 1].log[d];
    i := ServedTokensAreFresh(states, actions, n, j);
    assert Untouched(log, i, j);
  }
}
