/**
 Single-flight token refresh of the mobile client, against a server that rotates single-use refresh tokens.

 The client's code runs atomically between awaits. Each method of `Client` is one such segment; `Step` gives the
 segments on values together with the environment: sign-ins, sign-outs, server replies, lost replies.
 */
module MobileAuth {
  import opened Wrappers

  /** Refresh tokens, numbered in the order the server mints them. */
  type Token = nat
  type Body = nat
  type SignIn = nat

  /** Progress of one refresh body between its awaits. */
  datatype Pc =
    | Reading                       // awaiting the stored refresh token
    | Read(token: Token)            // has it, not yet posted
    | Posted(token: Token)          // awaiting the server
    | SavingAccess(next: Token)     // `persist`: access token being written
    | SavingRefresh(next: Token)    // `persist`: refresh token being written
    | Closing                       // about to run `finally`
  {
    predicate Saving() { SavingAccess? || SavingRefresh? }
    predicate Holding() { Read? || Posted? }
  }

  datatype Event = Sent(token: Token) | Succeeded(token: Token)

  /**
   `stored` is the refresh token in the secure store; `signIns` are sign-ins that have their tokens but have not
   saved them. The server has minted the tokens below `minted`; it will no longer accept `spent` ones (redeemed,
   and the client knows) or `burned` ones (redeemed or revoked without the client knowing).
   */
  datatype State = State(
    stored: Option<Token>,
    inFlight: Option<Body>,
    bodies: map<Body, Pc>,
    signIns: map<SignIn, Token>,
    minted: nat,
    spent: set<Token>,
    burned: set<Token>,
    log: seq<Event>)

  predicate Initial(s: State) {
    && s.inFlight.None? && s.bodies == map[] && s.signIns == map[] && s.spent == {} && s.log == []
    && (s.stored.Some? ==> s.stored.value < s.minted)
  }

  datatype Action =
    | CallRefresh(body: Body)
    | ReadStore(body: Body)
    | SendPost(body: Body)
    | ReplyOk(body: Body)
    | ReplyFailed(body: Body)
    | ReplyLost(body: Body)
    | SaveAccess(body: Body)
    | SaveRefresh(body: Body, written: bool)
    | Finish(body: Body)
    | SignInReply(signIn: SignIn)
    | SignInSave(signIn: SignIn, written: bool)
    | ClearStore(cleared: bool)
    | Revoke(token: Token)

  predicate Enabled(s: State, a: Action) {
    match a
    case CallRefresh(b) => s.inFlight.None? ==> b !in s.bodies
    case ReadStore(b) => b in s.bodies && s.bodies[b].Reading?
    case SendPost(b) => b in s.bodies && s.bodies[b].Read?
    case ReplyOk(b) => b in s.bodies && s.bodies[b].Posted? && s.bodies[b].token !in s.spent + s.burned
    case ReplyFailed(b) => b in s.bodies && s.bodies[b].Posted?
    case ReplyLost(b) => b in s.bodies && s.bodies[b].Posted? && s.bodies[b].token !in s.spent + s.burned
    case SaveAccess(b) => b in s.bodies && s.bodies[b].SavingAccess?
    case SaveRefresh(b, _) => b in s.bodies && s.bodies[b].SavingRefresh?
    case Finish(b) => b in s.bodies && s.bodies[b].Closing?
    case SignInReply(i) => i !in s.signIns
    case SignInSave(i, _) => i in s.signIns
    case ClearStore(_) => true
    case Revoke(_) => true
  }

  function Step(s: State, a: Action): State
    requires Enabled(s, a)
  {
    match a
    case CallRefresh(b) =>
      if s.inFlight.Some? then s else s.(inFlight := Some(b), bodies := s.bodies[b := Reading])
    case ReadStore(b) =>
      s.(bodies := s.bodies[b := if s.stored.Some? then Read(s.stored.value) else Closing])
    case SendPost(b) =>
      s.(bodies := s.bodies[b := Posted(s.bodies[b].token)], log := s.log + [Sent(s.bodies[b].token)])
    case ReplyOk(b) =>
      s.(bodies := s.bodies[b := SavingAccess(s.minted)], minted := s.minted + 1,
         spent := s.spent + {s.bodies[b].token}, log := s.log + [Succeeded(s.bodies[b].token)])
    case ReplyFailed(b) => s.(bodies := s.bodies[b := Closing])
    case ReplyLost(b) =>
      s.(bodies := s.bodies[b := Closing], minted := s.minted + 1, burned := s.burned + {s.bodies[b].token})
    case SaveAccess(b) => s.(bodies := s.bodies[b := SavingRefresh(s.bodies[b].next)])
    case SaveRefresh(b, written) =>
      s.(bodies := s.bodies[b := Closing], stored := if written then Some(s.bodies[b].next) else s.stored)
    case Finish(b) => s.(bodies := s.bodies - {b}, inFlight := None)
    case SignInReply(i) => s.(signIns := s.signIns[i := s.minted], minted := s.minted + 1)
    case SignInSave(i, written) =>
      s.(signIns := s.signIns - {i}, stored := if written then Some(s.signIns[i]) else s.stored)
    case ClearStore(cleared) => s.(stored := if cleared then None else s.stored)
    case Revoke(token) => s.(burned := s.burned + {token})
  }

  predicate IsRun(states: seq<State>, actions: seq<Action>) {
    && |states| == |actions| + 1
    && Initial(states[0])
    && forall i :: 0 <= i < |actions| ==> Enabled(states[i], actions[i]) && states[i + 1] == Step(states[i], actions[i])
  }

  /** Every save of a rotated refresh token reaches the store. */
  predicate SavesSucceed(actions: seq<Action>) {
    forall i :: 0 <= i < |actions| && actions[i].SaveRefresh? ==> actions[i].written
  }

  // ---- the client ----

  class Client {
    var stored: Option<Token>
    var refreshInFlight: Option<Body>
    var bodies: map<Body, Pc>
    ghost var signIns: map<SignIn, Token>
    ghost var minted: nat
    ghost var spent: set<Token>
    ghost var burned: set<Token>
    ghost var log: seq<Event>

    ghost function View(): State
      reads this
    {
      State(stored, refreshInFlight, bodies, signIns, minted, spent, burned, log)
    }

    /** A freshly loaded module over whatever an earlier session left in the store. */
    constructor (found: Option<Token>, ghost serverMinted: nat, ghost serverBurned: set<Token>)
      requires found.Some? ==> found.value < serverMinted
      ensures Initial(View()) && stored == found && minted == serverMinted && burned == serverBurned
    {
      stored, refreshInFlight, bodies := found, None, map[];
      signIns, minted, spent, burned, log := map[], serverMinted, {}, serverBurned, [];
    }

    /** `refresh`: join the refresh in flight, or start one and remember it. */
    method Refresh(spare: Body) returns (joined: Body)
      requires Enabled(View(), CallRefresh(spare))
      modifies this`refreshInFlight, this`bodies
      ensures View() == Step(old(View()), CallRefresh(spare))
      ensures refreshInFlight == Some(joined)
    {
      if refreshInFlight.Some? {
        return refreshInFlight.value;
      }
      bodies := bodies[spare := Reading];
      refreshInFlight := Some(spare);
      return spare;
    }

    method ReadStoredToken(b: Body)
      requires Enabled(View(), ReadStore(b))
      modifies this`bodies
      ensures View() == Step(old(View()), ReadStore(b))
    {
      if stored.None? {
        bodies := bodies[b := Closing];
      } else {
        bodies := bodies[b := Read(stored.value)];
      }
    }

    method PostRefresh(b: Body) returns (token: Token)
      requires Enabled(View(), SendPost(b))
      modifies this`bodies, this`log
      ensures View() == Step(old(View()), SendPost(b))
      ensures old(bodies)[b] == Read(token)
    {
      token := bodies[b].token;
      bodies := bodies[b := Posted(token)];
      log := log + [Sent(token)];
    }

    /** The POST came back: `next` is the rotated refresh token of a usable answer. */
    method HandleReply(b: Body, next: Option<Token>)
      requires next.None? ==> Enabled(View(), ReplyFailed(b))
      requires next.Some? ==> Enabled(View(), ReplyOk(b)) && next.value == minted
      modifies this`bodies, this`minted, this`spent, this`log
      ensures View() == Step(old(View()), if next.Some? then ReplyOk(b) else ReplyFailed(b))
    {
      if next.None? {
        bodies := bodies[b := Closing];
      } else {
        minted, spent, log := minted + 1, spent + {bodies[b].token}, log + [Succeeded(bodies[b].token)];
        bodies := bodies[b := SavingAccess(next.value)];
      }
    }

    /** `persist`, first write. */
    method SaveAccessToken(b: Body)
      requires Enabled(View(), SaveAccess(b))
      modifies this`bodies
      ensures View() == Step(old(View()), SaveAccess(b))
    {
      bodies := bodies[b := SavingRefresh(bodies[b].next)];
    }

    /** `persist`, second write; a failing write is swallowed by the store. */
    method SaveRefreshToken(b: Body, written: bool)
      requires Enabled(View(), SaveRefresh(b, written))
      modifies this`bodies, this`stored
      ensures View() == Step(old(View()), SaveRefresh(b, written))
    {
      if written {
        stored := Some(bodies[b].next);
      }
      bodies := bodies[b := Closing];
    }

    /** The `finally` clause. */
    method FinishRefresh(b: Body)
      requires Enabled(View(), Finish(b))
      modifies this`bodies, this`refreshInFlight
      ensures View() == Step(old(View()), Finish(b))
    {
      bodies := bodies - {b};
      refreshInFlight := None;
    }
  }

  // ---- invariant ----

  /** There is a refresh body exactly when one is remembered, and it is that one. */
  predicate SingleFlight(s: State) {
    && (forall b :: b in s.bodies ==> s.inFlight == Some(b))
    && (s.inFlight.Some? ==> s.inFlight.value in s.bodies)
  }

  /** A token that sits in no place where it could be posted from, and has never been redeemed. */
  predicate Unreleased(s: State, t: Token) {
    && t < s.minted && t !in s.spent && s.stored != Some(t)
    && (forall b :: b in s.bodies && s.bodies[b].Holding() ==> s.bodies[b].token != t)
  }

  ghost predicate Invariant(s: State) {
    && SingleFlight(s)
    && (forall t :: t in s.spent <==> Succeeded(t) in s.log)
    && (forall t :: t in s.spent ==> t < s.minted)
    && (forall b :: b in s.bodies && s.bodies[b].Holding() ==>
          s.bodies[b].token < s.minted && s.bodies[b].token !in s.spent)
    && (forall b :: b in s.bodies && s.bodies[b].Saving() ==> Unreleased(s, s.bodies[b].next))
    && (forall i :: i in s.signIns ==> Unreleased(s, s.signIns[i]))
    && (forall i, j :: i in s.signIns && j in s.signIns && i != j ==> s.signIns[i] != s.signIns[j])
    && (forall b, i :: b in s.bodies && s.bodies[b].Saving() && i in s.signIns ==> s.bodies[b].next != s.signIns[i])
    && (s.stored.Some? ==>
          && s.stored.value < s.minted
          && (s.stored.value in s.spent ==> exists b :: b in s.bodies && s.bodies[b].Saving()))
  }

  lemma CallKeepsInvariant(s: State, b: Body)
    requires Invariant(s) && Enabled(s, CallRefresh(b))
    ensures Invariant(Step(s, CallRefresh(b)))
  {
  }

  lemma ReadKeepsInvariant(s: State, b: Body)
    requires Invariant(s) && Enabled(s, ReadStore(b))
    ensures Invariant(Step(s, ReadStore(b)))
  {
  }

  lemma SendKeepsInvariant(s: State, b: Body)
    requires Invariant(s) && Enabled(s, SendPost(b))
    ensures Invariant(Step(s, SendPost(b)))
  {
  }

  lemma ReplyOkKeepsInvariant(s: State, b: Body)
    requires Invariant(s) && Enabled(s, ReplyOk(b))
    ensures Invariant(Step(s, ReplyOk(b)))
  {
    var t := Step(s, ReplyOk(b));
    assert b in t.bodies && t.bodies[b].Saving();
  }

  lemma ReplyFailedKeepsInvariant(s: State, b: Body)
    requires Invariant(s) && Enabled(s, ReplyFailed(b))
    ensures Invariant(Step(s, ReplyFailed(b)))
  {
  }

  lemma ReplyLostKeepsInvariant(s: State, b: Body)
    requires Invariant(s) && Enabled(s, ReplyLost(b))
    ensures Invariant(Step(s, ReplyLost(b)))
  {
  }

  lemma SaveAccessKeepsInvariant(s: State, b: Body)
    requires Invariant(s) && Enabled(s, SaveAccess(b))
    ensures Invariant(Step(s, SaveAccess(b)))
  {
    var t := Step(s, SaveAccess(b));
    assert b in t.bodies && t.bodies[b].Saving();
  }

  /** The only step that needs the store to work. */
  lemma SaveRefreshKeepsInvariant(s: State, b: Body)
    requires Invariant(s) && Enabled(s, SaveRefresh(b, true))
    ensures Invariant(Step(s, SaveRefresh(b, true)))
  {
  }

  lemma FinishKeepsInvariant(s: State, b: Body)
    requires Invariant(s) && Enabled(s, Finish(b))
    ensures Invariant(Step(s, Finish(b)))
  {
  }

  lemma SignInReplyKeepsInvariant(s: State, i: SignIn)
    requires Invariant(s) && Enabled(s, SignInReply(i))
    ensures Invariant(Step(s, SignInReply(i)))
  {
  }

  lemma FailedSignInSaveKeepsInvariant(s: State, i: SignIn)
    requires Invariant(s) && Enabled(s, SignInSave(i, false))
    ensures Invariant(Step(s, SignInSave(i, false)))
  {
  }

  lemma SignInSaveKeepsInvariant(s: State, i: SignIn)
    requires Invariant(s) && Enabled(s, SignInSave(i, true))
    ensures Invariant(Step(s, SignInSave(i, true)))
  {
    var t := Step(s, SignInSave(i, true));
    assert t.bodies == s.bodies && t.spent == s.spent && t.minted == s.minted;
    assert t.stored == Some(s.signIns[i]) && Unreleased(s, s.signIns[i]);
  }

  lemma ClearKeepsInvariant(s: State, cleared: bool)
    requires Invariant(s)
    ensures Invariant(Step(s, ClearStore(cleared)))
  {
  }

  lemma RevokeKeepsInvariant(s: State, token: Token)
    requires Invariant(s)
    ensures Invariant(Step(s, Revoke(token)))
  {
  }

  lemma StepKeepsInvariant(s: State, a: Action)
    requires Invariant(s) && Enabled(s, a) && (a.SaveRefresh? ==> a.written)
    ensures Invariant(Step(s, a))
  {
    match a
    case CallRefresh(b) => CallKeepsInvariant(s, b);
    case ReadStore(b) => ReadKeepsInvariant(s, b);
    case SendPost(b) => SendKeepsInvariant(s, b);
    case ReplyOk(b) => ReplyOkKeepsInvariant(s, b);
    case ReplyFailed(b) => ReplyFailedKeepsInvariant(s, b);
    case ReplyLost(b) => ReplyLostKeepsInvariant(s, b);
    case SaveAccess(b) => SaveAccessKeepsInvariant(s, b);
    case SaveRefresh(b, _) => SaveRefreshKeepsInvariant(s, b);
    case Finish(b) => FinishKeepsInvariant(s, b);
    case SignInReply(i) => SignInReplyKeepsInvariant(s, i);
    case SignInSave(i, written) =>
      if written {
        SignInSaveKeepsInvariant(s, i);
      } else {
        FailedSignInSaveKeepsInvariant(s, i);
      }
    case ClearStore(cleared) => ClearKeepsInvariant(s, cleared);
    case Revoke(token) => RevokeKeepsInvariant(s, token);
  }

  lemma {:induction false} RunKeepsInvariant(states: seq<State>, actions: seq<Action>, k: nat)
    requires IsRun(states, actions) && SavesSucceed(actions) && k < |states|
    ensures Invariant(states[k])
  {
    if k > 0 {
      RunKeepsInvariant(states, actions, k - 1);
      StepKeepsInvariant(states[k - 1], actions[k - 1]);
    }
  }

  lemma {:induction false} RunIsSingleFlight(states: seq<State>, actions: seq<Action>, k: nat)
    requires IsRun(states, actions) && k < |states|
    ensures SingleFlight(states[k])
  {
    if k > 0 {
      RunIsSingleFlight(states, actions, k - 1);
    }
  }

  // ---- theorems over every interleaving ----

  /** At most one refresh POST is outstanding, with or without working saves. */
  lemma AtMostOneRefreshPost(states: seq<State>, actions: seq<Action>, k: nat, a: Body, b: Body)
    requires IsRun(states, actions) && k < |states|
    requires a in states[k].bodies && states[k].bodies[a].Posted?
    requires b in states[k].bodies && states[k].bodies[b].Posted?
    ensures a == b && states[k].inFlight == Some(a)
  {
    RunIsSingleFlight(states, actions, k);
  }

  lemma LogOfStep(s: State, a: Action)
    requires Enabled(s, a)
    ensures s.log <= Step(s, a).log && |Step(s, a).log| <= |s.log| + 1
  {
  }

  /** Each event was appended by a step, from a state whose log is exactly what came before it. */
  lemma {:induction false} LogStep(states: seq<State>, actions: seq<Action>, k: nat, j: nat) returns (m: nat)
    requires IsRun(states, actions) && k < |states| && j < |states[k].log|
    ensures m < k && states[m].log == states[k].log[..j] && states[m + 1].log == states[k].log[..j + 1]
  {
    assert k > 0;
    LogOfStep(states[k - 1], actions[k - 1]);
    if j < |states[k - 1].log| {
      m := LogStep(states, actions, k - 1, j);
    } else {
      m := k - 1;
    }
  }

  /** If saves succeed, a refresh token is never posted again after the client has received a success for it. */
  lemma NoPostAfterSuccess(states: seq<State>, actions: seq<Action>, k: nat, i: nat, j: nat)
    requires IsRun(states, actions) && SavesSucceed(actions) && k < |states|
    requires i < j < |states[k].log| && states[k].log[i].Succeeded?
    ensures states[k].log[j] != Sent(states[k].log[i].token)
  {
    var log := states[k].log;
    var m := LogStep(states, actions, k, j);
    RunKeepsInvariant(states, actions, m);
    assert states[m].log[i] == log[i];
    assert log[i].token in states[m].spent;
    if log[j].Sent? {
      assert states[m + 1].log[j] == log[j];
      assert actions[m].SendPost?;
    }
  }

  /** If, besides, no reply is lost and no token revoked, every posted token is one the server still accepts. */
  predicate NothingBurned(states: seq<State>) {
    forall i :: 0 <= i < |states| ==> states[i].burned == {}
  }

  lemma PostedTokensAreAccepted(states: seq<State>, actions: seq<Action>, k: nat, b: Body)
    requires IsRun(states, actions) && SavesSucceed(actions) && NothingBurned(states) && k < |states|
    requires b in states[k].bodies && states[k].bodies[b].Posted?
    ensures Enabled(states[k], ReplyOk(b)) && states[k].bodies[b].token < states[k].minted
  {
    RunKeepsInvariant(states, actions, k);
  }

  lemma Extend(states: seq<State>, actions: seq<Action>, a: Action) returns (more: seq<State>, acts: seq<Action>)
    requires IsRun(states, actions) && Enabled(states[|actions|], a)
    ensures IsRun(more, acts) && |more| == |states| + 1
    ensures more[|states|] == Step(states[|actions|], a)
    ensures SavesSucceed(actions) && (a.SaveRefresh? ==> a.written) ==> SavesSucceed(acts)
  {
    more, acts := states + [Step(states[|actions|], a)], actions + [a];
  }

  lemma UntilReply() returns (states: seq<State>, actions: seq<Action>)
    ensures IsRun(states, actions) && SavesSucceed(actions)
    ensures states[|states| - 1]
         == State(Some(0), Some(0), map[0 := SavingAccess(1)], map[], 2, {0}, {}, [Sent(0), Succeeded(0)])
  {
    states, actions := [State(Some(0), None, map[], map[], 1, {}, {}, [])], [];
    states, actions := Extend(states, actions, CallRefresh(0));
    states, actions := Extend(states, actions, ReadStore(0));
    states, actions := Extend(states, actions, SendPost(0));
    states, actions := Extend(states, actions, ReplyOk(0));
  }

  /** A refresh that succeeds but whose save fails leaves the redeemed token in the store. */
  lemma FailedSave() returns (states: seq<State>, actions: seq<Action>)
    ensures IsRun(states, actions)
    ensures states[|states| - 1] == State(Some(0), None, map[], map[], 2, {0}, {}, [Sent(0), Succeeded(0)])
  {
    states, actions := UntilReply();
    states, actions := Extend(states, actions, SaveAccess(0));
    states, actions := Extend(states, actions, SaveRefresh(0, false));
    states, actions := Extend(states, actions, Finish(0));
  }

  /** A failed save is enough to post a redeemed token again. */
  lemma FailedSaveReposts() returns (states: seq<State>, actions: seq<Action>)
    ensures IsRun(states, actions)
    ensures states[|states| - 1].log == [Sent(0), Succeeded(0), Sent(0)]
  {
    states, actions := FailedSave();
    states, actions := Extend(states, actions, CallRefresh(1));
    states, actions := Extend(states, actions, ReadStore(1));
    states, actions := Extend(states, actions, SendPost(1));
  }

  // ---- what a refresh achieves ----

  /** Every token in circulation was minted. */
  predicate AllMinted(s: State) {
    && (forall t :: t in s.spent ==> t < s.minted)
    && (s.stored.Some? ==> s.stored.value < s.minted)
    && (forall b :: b in s.bodies && s.bodies[b].Holding() ==> s.bodies[b].token < s.minted)
    && (forall b :: b in s.bodies && s.bodies[b].Saving() ==> s.bodies[b].next < s.minted)
    && (forall i :: i in s.signIns ==> s.signIns[i] < s.minted)
  }

  lemma StepIsMinted(s: State, a: Action)
    requires AllMinted(s) && Enabled(s, a)
    ensures AllMinted(Step(s, a))
  {
  }

  lemma {:induction false} RunIsMinted(states: seq<State>, actions: seq<Action>, k: nat)
    requires IsRun(states, actions) && k < |states|
    ensures AllMinted(states[k])
  {
    if k > 0 {
      RunIsMinted(states, actions, k - 1);
      StepIsMinted(states[k - 1], actions[k - 1]);
    }
  }

  /** From the success at `i` on, until it is saved, body `b` carries the token that success minted. */
  lemma {:induction false} CarriesMinted(states: seq<State>, actions: seq<Action>, b: Body, i: nat, j: nat)
    requires IsRun(states, actions) && i < j <= |actions| && actions[i] == ReplyOk(b)
    requires forall m :: i < m < j ==> !(actions[m].SaveRefresh? && actions[m].body == b)
    ensures b in states[j].bodies && states[j].bodies[b].Saving() && states[j].bodies[b].next == states[i].minted
    ensures states[j].spent == states[i].spent + {states[i].bodies[b].token}
  {
    RunIsSingleFlight(states, actions, j - 1);
    if j > i + 1 {
      CarriesMinted(states, actions, b, i, j - 1);
    }
  }

  /** A write to the store from outside the refresh. */
  predicate WritesStore(a: Action) {
    a == ClearStore(true) || (a.SignInSave? && a.written)
  }

  /** Nothing but a write to the store changes it, and a body that is closing stays until its `finally`. */
  lemma {:induction false} StaysStored(states: seq<State>, actions: seq<Action>, b: Body, j: nat, k: nat)
    requires IsRun(states, actions) && j < k < |states|
    requires b in states[j + 1].bodies && states[j + 1].bodies[b] == Closing
    requires forall m :: j < m < k ==>
               actions[m] != Finish(b) && !WritesStore(actions[m])
    ensures b in states[k].bodies && states[k].bodies[b] == Closing
    ensures states[k].stored == states[j + 1].stored && states[k].spent == states[j + 1].spent
  {
    if k > j + 1 {
      StaysStored(states, actions, b, j, k - 1);
      RunIsSingleFlight(states, actions, k - 1);
    }
  }

  /**
   A refresh that succeeds at `i`, is saved at `j` and ends at `k` leaves in the store exactly the token its success
   minted, unless a sign-in or a clear wrote the store in between. That token was never redeemed.
   */
  lemma SavedTokenIsStored(states: seq<State>, actions: seq<Action>, b: Body, i: nat, j: nat, k: nat)
    requires IsRun(states, actions) && i < j < k < |actions|
    requires actions[i] == ReplyOk(b) && actions[j] == SaveRefresh(b, true) && actions[k] == Finish(b)
    requires forall m :: i < m < j ==> !(actions[m].SaveRefresh? && actions[m].body == b)
    requires forall m :: j < m < k ==>
               actions[m] != Finish(b) && !WritesStore(actions[m])
    ensures var s := states[k + 1];
            && s.stored == Some(states[i].minted) && s.inFlight.None?
            && states[i].minted < s.minted && states[i].minted !in s.spent
            && (NothingBurned(states) ==> states[i].minted !in s.spent + s.burned)
  {
    CarriesMinted(states, actions, b, i, j);
    StaysStored(states, actions, b, j, k);
    RunIsMinted(states, actions, i);
    RunIsMinted(states, actions, k + 1);
  }

  /** What is posted next is what is stored: the token read is the stored one, and the token read is the one posted. */
  lemma StoredTokenIsPosted(states: seq<State>, actions: seq<Action>, b: Body, i: nat)
    requires IsRun(states, actions) && i + 1 < |actions|
    requires actions[i] == ReadStore(b) && states[i].stored.Some? && actions[i + 1] == SendPost(b)
    ensures states[i + 2].log == states[i].log + [Sent(states[i].stored.value)]
    ensures b in states[i + 2].bodies && states[i + 2].bodies[b] == Posted(states[i].stored.value)
  {
  }

  /**
   The other steps of a refresh: a call joins the refresh in flight or starts one; without a stored token, and on any
   failure, the body goes straight to its end with store and log as they were; its end forgets it.
   */
  lemma RefreshSteps(states: seq<State>, actions: seq<Action>, k: nat, b: Body)
    requires IsRun(states, actions) && k < |actions|
    ensures var s, u := states[k], states[k + 1];
            && (actions[k] == CallRefresh(b) && s.inFlight.Some? ==> u == s)
            && (actions[k] == CallRefresh(b) && s.inFlight.None? ==>
                  u.inFlight == Some(b) && b in u.bodies && u.bodies[b] == Reading)
            && ((actions[k] == ReadStore(b) && s.stored.None?) || actions[k] in {ReplyFailed(b), ReplyLost(b)} ==>
                  b in u.bodies && u.bodies[b] == Closing && u.stored == s.stored && u.log == s.log)
            && (actions[k] == Finish(b) ==> b !in u.bodies && u.inFlight.None? && u.stored == s.stored)
  {
  }

  /** A sign-in stores its own token, and clearing the store empties it. */
  lemma SignInAndClear(states: seq<State>, actions: seq<Action>, k: nat)
    requires IsRun(states, actions) && k < |actions|
    ensures forall i :: actions[k] == SignInReply(i) ==>
              i in states[k + 1].signIns && states[k + 1].signIns[i] == states[k].minted == states[k + 1].minted - 1
    ensures forall i :: actions[k] == SignInSave(i, true) ==> states[k + 1].stored == Some(states[k].signIns[i])
    ensures forall i :: actions[k] == SignInSave(i, false) ==> states[k + 1].stored == states[k].stored
    ensures actions[k] == ClearStore(true) ==> states[k + 1].stored.None?
    ensures actions[k] == ClearStore(false) ==> states[k + 1].stored == states[k].stored
  {
  }

  lemma SavedRefresh() returns (states: seq<State>, actions: seq<Action>)
    ensures IsRun(states, actions) && SavesSucceed(actions)
    ensures states[|states| - 1] == State(Some(1), None, map[], map[], 2, {0}, {}, [Sent(0), Succeeded(0)])
  {
    states, actions := UntilReply();
    states, actions := Extend(states, actions, SaveAccess(0));
    states, actions := Extend(states, actions, SaveRefresh(0, true));
    states, actions := Extend(states, actions, Finish(0));
  }

  /** Two refreshes in a row: the second posts the token the first one was given. */
  lemma RefreshRotates() returns (states: seq<State>, actions: seq<Action>)
    ensures IsRun(states, actions) && SavesSucceed(actions)
    ensures states[|states| - 1].log == [Sent(0), Succeeded(0), Sent(1)]
  {
    states, actions := SavedRefresh();
    states, actions := Extend(states, actions, CallRefresh(1));
    states, actions := Extend(states, actions, ReadStore(1));
    states, actions := Extend(states, actions, SendPost(1));
  }
}
