/** Mailed one-time codes: one pending code per user and purpose, each accepted once,
    five wrong guesses at most (internal/auth/service.go, internal/store/identity.go). */
module Challenges {
  import opened Options

  type Id = nat
  type Time = int

  datatype Slot = Slot(user: nat, purpose: string)

  datatype Challenge = Challenge(slot: Slot, code: string, expiresAt: Time, attempts: nat, consumedAt: Option<Time>)

  // Fresh ids are numbered in the order they are created; created_at follows that order.
  datatype State = State(challenges: map<Id, Challenge>, issued: nat)

  const NO_CHALLENGES := State(map[], 0)

  const DAY: Time := 86400
  const MAX_ATTEMPTS := 5

  // eligible: the account may verify at all; rest: everything the transaction does
  // after consuming the code succeeds.
  datatype Event =
    | Create(slot: Slot, code: string, ttl: Time, now: Time)
    | Verify(slot: Slot, guess: string, eligible: bool, rest: bool, now: Time)
    | DeliveryFailed(id: Id, now: Time)
    | Cleanup(now: Time)

  datatype Result = Created(id: Id) | Accepted | BadCode | TooManyAttempts | Failed | Done

  // ----- statements -----

  predicate PendingIn(challenges: map<Id, Challenge>, slot: Slot, id: Id) {
    id in challenges && challenges[id].slot == slot && challenges[id].consumedAt.None?
  }

  function Invalidated(challenges: map<Id, Challenge>, slot: Slot, now: Time): map<Id, Challenge> {
    map id | id in challenges ::
      if PendingIn(challenges, slot, id) then challenges[id].(consumedAt := Some(now)) else challenges[id]
  }

  function Consumed(challenges: map<Id, Challenge>, id: Id, now: Time): map<Id, Challenge> {
    if id in challenges && challenges[id].consumedAt.None?
    then challenges[id := challenges[id].(consumedAt := Some(now))] else challenges
  }

  function Bumped(challenges: map<Id, Challenge>, id: Id): map<Id, Challenge>
    requires id in challenges
  {
    challenges[id := challenges[id].(attempts := challenges[id].attempts + 1)]
  }

  predicate Stale(c: Challenge, now: Time) {
    (c.consumedAt.Some? && c.consumedAt.value < now - DAY) || c.expiresAt < now - DAY
  }

  predicate IsLatest(challenges: map<Id, Challenge>, slot: Slot, id: Id) {
    PendingIn(challenges, slot, id) && forall x :: x in challenges && PendingIn(challenges, slot, x) ==> x <= id
  }

  // The newest pending code.
  ghost function Latest(challenges: map<Id, Challenge>, slot: Slot): Option<Id> {
    if id :| IsLatest(challenges, slot, id) then Some(id) else None
  }

  // ----- steps -----

  ghost function Step(st: State, e: Event): (State, Result) {
    match e
    case Create(slot, code, ttl, now) =>
      (State(Invalidated(st.challenges, slot, now)[st.issued := Challenge(slot, code, now + ttl, 0, None)], st.issued + 1),
       Created(st.issued))
    case Verify(slot, guess, eligible, rest, now) => if !eligible then (st, BadCode) else Verified(st, slot, guess, rest, now)
    case DeliveryFailed(id, now) => (st.(challenges := Consumed(st.challenges, id, now)), Done)
    case Cleanup(now) =>
      (st.(challenges := map id | id in st.challenges && !Stale(st.challenges[id], now) :: st.challenges[id]), Done)
  }

  // A wrong guess is counted outside the transaction that fails because of it.
  ghost function Verified(st: State, slot: Slot, guess: string, rest: bool, now: Time): (State, Result) {
    match Latest(st.challenges, slot)
    case None => (st, BadCode)
    case Some(id) =>
      var c := st.challenges[id];
      if now > c.expiresAt then (st, BadCode)
      else if c.attempts >= MAX_ATTEMPTS then (st, TooManyAttempts)
      else if guess != c.code then (st.(challenges := Bumped(st.challenges, id)), BadCode)
      else if !rest then (st, Failed)
      else (st.(challenges := Consumed(st.challenges, id, now)), Accepted)
  }

  ghost function After(st: State, e: Event): State { Step(st, e).0 }

  ghost function Run(st: State, events: seq<Event>): State
    decreases |events|
  {
    if events == [] then st else Run(After(st, events[0]), events[1..])
  }

  // ----- the invariant: one pending code a slot, never more than five attempts -----

  ghost predicate Inv(st: State) {
    && (forall id :: id in st.challenges ==> id < st.issued && st.challenges[id].attempts <= 5)
    && (forall slot, a, b :: PendingIn(st.challenges, slot, a) && PendingIn(st.challenges, slot, b) ==> a == b)
  }

  lemma LatestIsPending(st: State, slot: Slot, id: Id)
    requires Inv(st)
    ensures Latest(st.challenges, slot) == Some(id) <==> PendingIn(st.challenges, slot, id)
  {
    if PendingIn(st.challenges, slot, id) {
      assert IsLatest(st.challenges, slot, id);
    }
  }

  lemma StepInv(st: State, e: Event)
    requires Inv(st)
    ensures Inv(After(st, e))
  {
    var st' := After(st, e);
    forall slot, a | PendingIn(st'.challenges, slot, a)
      ensures PendingIn(st.challenges, slot, a) || (e.Create? && e.slot == slot && a == st.issued)
      ensures e.Create? && e.slot == slot ==> a == st.issued
    {
    }
    assert e.Create? ==> st.issued !in st.challenges;
  }

  // At most one unconsumed code per user and purpose, in every run.
  lemma {:induction false} RunInv(st: State, events: seq<Event>)
    requires Inv(st)
    ensures Inv(Run(st, events))
    decreases |events|
  {
    if events != [] {
      StepInv(st, events[0]);
      RunInv(After(st, events[0]), events[1..]);
    }
  }

  // ----- accepted at most once -----

  // The code that a step accepts.
  ghost predicate Accepts(st: State, e: Event, id: Id) {
    e.Verify? && Latest(st.challenges, e.slot) == Some(id) && Step(st, e).1 == Accepted
  }

  // Created once, and now consumed or gone.
  predicate Spent(st: State, id: Id) {
    id < st.issued && (id in st.challenges ==> st.challenges[id].consumedAt.Some?)
  }

  lemma SpentStays(st: State, e: Event, id: Id)
    requires Inv(st) && Spent(st, id)
    ensures Spent(After(st, e), id)
  {
  }

  lemma {:induction false} SpentForever(st: State, events: seq<Event>, id: Id)
    requires Inv(st) && Spent(st, id)
    ensures Spent(Run(st, events), id)
    decreases |events|
  {
    if events != [] {
      SpentStays(st, events[0], id);
      StepInv(st, events[0]);
      SpentForever(After(st, events[0]), events[1..], id);
    }
  }

  lemma SpentNotAccepted(st: State, e: Event, id: Id)
    requires Inv(st) && Spent(st, id)
    ensures !Accepts(st, e, id)
  {
    if e.Verify? {
      LatestIsPending(st, e.slot, id);
    }
  }

  // Each code is accepted at most once, whatever happens between.
  lemma AcceptedOnce(st: State, first: Event, id: Id, events: seq<Event>, again: Event)
    requires Inv(st) && Accepts(st, first, id)
    ensures !Accepts(Run(After(st, first), events), again, id)
  {
    LatestIsPending(st, first.slot, id);
    StepInv(st, first);
    SpentForever(After(st, first), events, id);
    RunInv(After(st, first), events);
    SpentNotAccepted(Run(After(st, first), events), again, id);
  }

  // A newer code supersedes: the codes pending before it are never accepted again.
  lemma SupersededNeverAccepted(st: State, create: Event, id: Id, events: seq<Event>, later: Event)
    requires Inv(st) && create.Create? && PendingIn(st.challenges, create.slot, id)
    ensures !Accepts(Run(After(st, create), events), later, id)
  {
    StepInv(st, create);
    assert Spent(After(st, create), id);
    SpentForever(After(st, create), events, id);
    RunInv(After(st, create), events);
    SpentNotAccepted(Run(After(st, create), events), later, id);
  }

  // ----- at most five wrong guesses -----

  // An eligible guess in time, at the pending code.
  predicate Tries(st: State, e: Event, id: Id) {
    e.Verify? && e.eligible && PendingIn(st.challenges, e.slot, id) && e.now <= st.challenges[id].expiresAt
  }

  // A wrong guess was compared with this code: the answer is not that there were too many.
  ghost predicate WrongGuess(st: State, e: Event, id: Id) {
    Tries(st, e, id) && e.guess != st.challenges[id].code && Step(st, e).1 != TooManyAttempts
  }

  ghost function WrongGuesses(st: State, events: seq<Event>, id: Id): nat
    decreases |events|
  {
    if events == [] then 0
    else (if WrongGuess(st, events[0], id) then 1 else 0) + WrongGuesses(After(st, events[0]), events[1..], id)
  }

  function Attempts(st: State, id: Id): nat {
    if id in st.challenges then st.challenges[id].attempts else 0
  }

  lemma CountedStep(st: State, e: Event, id: Id)
    requires Inv(st)
    ensures WrongGuess(st, e, id) ==> id in st.challenges && id in After(st, e).challenges
                                      && Attempts(After(st, e), id) == Attempts(st, id) + 1
    ensures !WrongGuess(st, e, id) && id in After(st, e).challenges && id in st.challenges ==>
              Attempts(After(st, e), id) == Attempts(st, id)
    ensures id < st.issued && id !in st.challenges ==> id !in After(st, e).challenges
    ensures id in After(st, e).challenges && id !in st.challenges ==> Attempts(After(st, e), id) == 0
  {
    if e.Verify? {
      LatestIsPending(st, e.slot, id);
      if Latest(st.challenges, e.slot).Some? {
        LatestIsPending(st, e.slot, Latest(st.challenges, e.slot).value);
      }
    }
  }

  lemma {:induction false} GoneNeverGuessed(st: State, events: seq<Event>, id: Id)
    requires Inv(st) && id < st.issued && id !in st.challenges
    ensures WrongGuesses(st, events, id) == 0
    decreases |events|
  {
    if events != [] {
      CountedStep(st, events[0], id);
      StepInv(st, events[0]);
      GoneNeverGuessed(After(st, events[0]), events[1..], id);
    }
  }

  // In every run at most five wrong guesses are ever compared with one code, because
  // the count survives the failed transaction.
  lemma {:induction false} FiveGuesses(st: State, events: seq<Event>, id: Id)
    requires Inv(st)
    ensures Attempts(st, id) + WrongGuesses(st, events, id) <= 5
    decreases |events|
  {
    if events != [] {
      var st1 := After(st, events[0]);
      CountedStep(st, events[0], id);
      StepInv(st, events[0]);
      if id in st.challenges && id !in st1.challenges {
        GoneNeverGuessed(st1, events[1..], id);
      } else {
        FiveGuesses(st1, events[1..], id);
      }
    }
  }

  // ----- exactly when the mailed code works -----

  // Nothing else consumes the code: it is not superseded, accepted or undeliverable.
  ghost predicate Undisturbed(st: State, events: seq<Event>, slot: Slot, id: Id)
    decreases |events|
  {
    events == [] ||
    (var e := events[0];
     && !(e.Create? && e.slot == slot) && !(e.DeliveryFailed? && e.id == id) && !Accepts(st, e, id)
     && Undisturbed(After(st, e), events[1..], slot, id))
  }

  predicate NoLater(events: seq<Event>, now: Time) {
    forall i :: 0 <= i < |events| ==> events[i].now <= now
  }

  // The code is pending with its count, or the cleanup has taken it a day after it expired.
  ghost predicate Waiting(st: State, id: Id, c: Challenge, wrong: nat, now: Time) {
    if id in st.challenges
    then st.challenges[id] == c.(attempts := wrong)
    else id < st.issued && c.expiresAt < now && forall x :: !PendingIn(st.challenges, c.slot, x)
  }

  lemma WaitingStep(st: State, e: Event, id: Id, c: Challenge, wrong: nat, now: Time)
    requires Inv(st) && c.consumedAt.None? && Waiting(st, id, c, wrong, now) && e.now <= now
    requires !(e.Create? && e.slot == c.slot) && !(e.DeliveryFailed? && e.id == id) && !Accepts(st, e, id)
    requires id < st.issued
    ensures Waiting(After(st, e), id, c, wrong + (if WrongGuess(st, e, id) then 1 else 0), now)
    ensures id < After(st, e).issued
  {
    var st' := After(st, e);
    if e.Verify? {
      LatestIsPending(st, e.slot, id);
      if Latest(st.challenges, e.slot).Some? {
        LatestIsPending(st, e.slot, Latest(st.challenges, e.slot).value);
      }
    }
    if id in st.challenges {
      assert PendingIn(st.challenges, c.slot, id);
    }
    forall x | PendingIn(st'.challenges, c.slot, x)
      ensures PendingIn(st.challenges, c.slot, x)
    {
    }
  }

  lemma {:induction false} WaitingRun(st: State, events: seq<Event>, id: Id, c: Challenge, wrong: nat, now: Time)
    requires Inv(st) && c.consumedAt.None? && Waiting(st, id, c, wrong, now) && NoLater(events, now)
    requires id < st.issued && Undisturbed(st, events, c.slot, id)
    ensures Inv(Run(st, events)) && Waiting(Run(st, events), id, c, wrong + WrongGuesses(st, events, id), now)
    decreases |events|
  {
    if events != [] {
      var step := if WrongGuess(st, events[0], id) then 1 else 0;
      WaitingStep(st, events[0], id, c, wrong, now);
      StepInv(st, events[0]);
      WaitingRun(After(st, events[0]), events[1..], id, c, wrong + step, now);
    }
  }

  // A mailed code that nothing else has consumed is accepted exactly when it is typed
  // correctly, in time, and before the fifth wrong guess (and the account qualifies and
  // the rest of the transaction succeeds).
  lemma CodeWorksIff(st: State, create: Event, events: seq<Event>, verify: Event)
    requires Inv(st) && create.Create? && verify.Verify? && verify.slot == create.slot
    requires Undisturbed(After(st, create), events, create.slot, st.issued) && NoLater(events, verify.now)
    ensures Step(Run(After(st, create), events), verify).1 == Accepted <==>
              && verify.guess == create.code && verify.now <= create.now + create.ttl
              && WrongGuesses(After(st, create), events, st.issued) < 5
              && verify.eligible && verify.rest
  {
    var c := Challenge(create.slot, create.code, create.now + create.ttl, 0, None);
    var st1 := After(st, create);
    var st2 := Run(st1, events);
    StepInv(st, create);
    WaitingRun(st1, events, st.issued, c, 0, verify.now);
    LatestIsPending(st2, create.slot, st.issued);
    if st.issued !in st2.challenges && Latest(st2.challenges, create.slot).Some? {
      LatestIsPending(st2, create.slot, Latest(st2.challenges, create.slot).value);
    }
  }

  // After exactly five wrong guesses, and never before, an eligible guess in time at the
  // code is answered too many attempts; such an answer changes nothing.
  lemma SixthGuessIff(st: State, create: Event, events: seq<Event>, verify: Event)
    requires Inv(st) && create.Create? && verify.Verify? && verify.slot == create.slot
    requires Undisturbed(After(st, create), events, create.slot, st.issued) && NoLater(events, verify.now)
    requires verify.eligible && verify.now <= create.now + create.ttl
    ensures var st2 := Run(After(st, create), events);
      && (Step(st2, verify).1 == TooManyAttempts <==> WrongGuesses(After(st, create), events, st.issued) == 5)
      && (Step(st2, verify).1 == TooManyAttempts ==> After(st2, verify) == st2)
  {
    var c := Challenge(create.slot, create.code, create.now + create.ttl, 0, None);
    var st1 := After(st, create);
    StepInv(st, create);
    WaitingRun(st1, events, st.issued, c, 0, verify.now);
    FiveGuesses(st1, events, st.issued);
    LatestIsPending(Run(st1, events), create.slot, st.issued);
  }

  // ----- what each step answers and writes -----

  // Every answer of a verification, told from the rows.
  lemma VerifyAnswers(st: State, e: Event)
    requires Inv(st) && e.Verify?
    ensures var r := Step(st, e).1;
      && (r == TooManyAttempts <==> exists id: Id :: Tries(st, e, id) && st.challenges[id].attempts == 5)
      && (r == Accepted <==> e.rest && exists id: Id :: RightGuess(st, e, id))
      && (r == Failed <==> !e.rest && exists id: Id :: RightGuess(st, e, id))
      && (r in {BadCode, TooManyAttempts, Accepted, Failed})
  {
    forall id: Id | Tries(st, e, id)
      ensures Latest(st.challenges, e.slot) == Some(id)
    {
      LatestIsPending(st, e.slot, id);
    }
    if e.eligible && Latest(st.challenges, e.slot).Some? {
      var id := Latest(st.challenges, e.slot).value;
      LatestIsPending(st, e.slot, id);
      assert e.now <= st.challenges[id].expiresAt ==> Tries(st, e, id);
      assert RightGuess(st, e, id) ==> Tries(st, e, id);
    }
  }

  // An eligible guess in time that finds the code, with fewer than five wrong ones before.
  predicate RightGuess(st: State, e: Event, id: Id) {
    Tries(st, e, id) && e.guess == st.challenges[id].code && st.challenges[id].attempts < 5
  }

  // What a step leaves of each stored code: consumed at the step's time, its count one
  // higher, removed a day after it was consumed or expired, or as it was.
  lemma ChallengeAfter(st: State, e: Event, id: Id)
    requires Inv(st) && id in st.challenges
    ensures var c, after := st.challenges[id], After(st, e).challenges;
      if e.Cleanup? && (c.expiresAt < e.now - 86_400 || (c.consumedAt.Some? && c.consumedAt.value < e.now - 86_400))
      then id !in after
      else if c.consumedAt.None? && ((e.Create? && e.slot == c.slot) || (e.DeliveryFailed? && e.id == id)
                                     || (RightGuess(st, e, id) && e.rest))
      then id in after && after[id] == c.(consumedAt := Some(e.now))
      else if Tries(st, e, id) && e.guess != c.code && c.attempts < 5
      then id in after && after[id] == c.(attempts := c.attempts + 1)
      else id in after && after[id] == c
  {
    if e.Verify? {
      LatestIsPending(st, e.slot, id);
      if Latest(st.challenges, e.slot).Some? {
        LatestIsPending(st, e.slot, Latest(st.challenges, e.slot).value);
      }
    }
  }

  // The new code is the only addition of any step.
  lemma NewChallenge(st: State, e: Event, id: Id)
    requires Inv(st) && id !in st.challenges
    ensures id in After(st, e).challenges <==> e.Create? && id == st.issued
    ensures id in After(st, e).challenges ==>
              After(st, e).challenges[id] == Challenge(e.slot, e.code, e.now + e.ttl, 0, None) && Step(st, e).1 == Created(id)
  {
    if e.Verify? && Latest(st.challenges, e.slot).Some? {
      LatestIsPending(st, e.slot, Latest(st.challenges, e.slot).value);
    }
  }

  // A code whose mail failed is never accepted.
  lemma UndeliveredNeverAccepted(st: State, failed: Event, events: seq<Event>, later: Event)
    requires Inv(st) && failed.DeliveryFailed? && failed.id < st.issued
    ensures !Accepts(Run(After(st, failed), events), later, failed.id)
  {
    StepInv(st, failed);
    SpentForever(After(st, failed), events, failed.id);
    RunInv(After(st, failed), events);
    SpentNotAccepted(Run(After(st, failed), events), later, failed.id);
  }

  // ----- the operations as they run -----

  class Store {
    var challenges: map<Id, Challenge>
    var issued: nat

    ghost function St(): State
      reads this
    {
      State(challenges, issued)
    }

    constructor ()
      ensures St() == NO_CHALLENGES && Inv(St())
    {
      challenges, issued := map[], 0;
    }

    method InvalidatePendingChallenges(slot: Slot, now: Time)
      modifies `challenges
      ensures challenges == Invalidated(old(challenges), slot, now)
    {
      challenges := map id | id in challenges ::
        if challenges[id].slot == slot && challenges[id].consumedAt.None?
        then challenges[id].(consumedAt := Some(now)) else challenges[id];
    }

    method CreateTargetedChallenge(slot: Slot, code: string, ttl: Time, now: Time) returns (id: Id)
      requires Inv(St())
      modifies this
      ensures (St(), Created(id)) == Step(old(St()), Create(slot, code, ttl, now)) && Inv(St())
    {
      StepInv(St(), Create(slot, code, ttl, now));
      InvalidatePendingChallenges(slot, now);
      id := issued;
      issued := issued + 1;
      challenges := challenges[id := Challenge(slot, code, now + ttl, 0, None)];
    }

    method LatestLiveChallenge(slot: Slot) returns (found: Option<Id>)
      requires Inv(St())
      ensures found == Latest(challenges, slot)
    {
      var pending := set id | id in challenges && challenges[id].slot == slot && challenges[id].consumedAt.None?;
      found := None;
      if pending != {} {
        var id :| id in pending;
        LatestIsPending(St(), slot, id);
        found := Some(id);
      } else {
        assert forall id :: PendingIn(challenges, slot, id) ==> id in pending;
      }
    }

    // The rows the transaction started from, kept for its rollback; a bump goes to the
    // table directly, so the rollback does not undo it.
    method VerifyCode(slot: Slot, guess: string, eligible: bool, rest: bool, now: Time) returns (r: Result)
      requires Inv(St())
      modifies this
      ensures (St(), r) == Step(old(St()), Verify(slot, guess, eligible, rest, now)) && Inv(St())
    {
      StepInv(St(), Verify(slot, guess, eligible, rest, now));
      if !eligible {
        return BadCode;
      }
      var start := challenges;
      var found := LatestLiveChallenge(slot);
      if found.None? {
        return BadCode;
      }
      var id := found.value;
      LatestIsPending(St(), slot, id);
      if now > challenges[id].expiresAt {
        return BadCode;
      }
      if challenges[id].attempts >= MAX_ATTEMPTS {
        return TooManyAttempts;
      }
      if guess != challenges[id].code {
        start := BumpChallengeAttempt(start, id);
        challenges := start;
        return BadCode;
      }
      challenges := Consumed(challenges, id, now);
      if !rest {
        challenges := start;
        return Failed;
      }
      return Accepted;
    }

    method BumpChallengeAttempt(table: map<Id, Challenge>, id: Id) returns (bumped: map<Id, Challenge>)
      requires id in table
      ensures bumped == Bumped(table, id)
    {
      bumped := table[id := table[id].(attempts := table[id].attempts + 1)];
    }

    // A code that could not be mailed is consumed, so that a new one can be asked for.
    method ConsumeUndelivered(id: Id, now: Time)
      requires Inv(St())
      modifies this
      ensures (St(), Done) == Step(old(St()), DeliveryFailed(id, now)) && Inv(St())
    {
      StepInv(St(), DeliveryFailed(id, now));
      if id in challenges && challenges[id].consumedAt.None? {
        challenges := challenges[id := challenges[id].(consumedAt := Some(now))];
      }
    }

    method PruneChallenges(now: Time)
      requires Inv(St())
      modifies this
      ensures (St(), Done) == Step(old(St()), Cleanup(now)) && Inv(St())
    {
      StepInv(St(), Cleanup(now));
      challenges := map id | id in challenges && !Stale(challenges[id], now) :: challenges[id];
    }
  }
}
