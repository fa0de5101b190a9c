/**
  TOTP credentials of Services/Mfa/TotpService.cs. VerifyAsync reads the credential and matches the
  code, and only then claims the matched time step with one conditional update; ConfirmAsync matches
  a code, replaces the recovery codes and only then saves. Other requests may run in between.
  Matching a code means finding a step within one of the current one. The other branch of
  VerifyAsync is in module RecoveryCodes.
*/
module Totp {
  import opened Events
  import opened Options

  type Id = nat

  /** 30 seconds in ticks. */
  const STEP_TICKS := 300_000_000

  function TimeStep(now: int): int {
    now / STEP_TICKS
  }

  /** VerificationWindow(previous: 1, future: 1). */
  predicate Matches(step: int, now: int) {
    TimeStep(now) - 1 <= step <= TimeStep(now) + 1
  }

  datatype Credential = Credential(user: Id, confirmed: bool, lastUsed: Option<int>)

  type Rows = map<Id, Credential>

  /** What a verification holds between its read and its claim. */
  datatype Pending = Pending(credential: Id, step: int, readAt: int)

  /** What a confirmation holds between its match and its save: the step, and LastUsedTimeStep as read. */
  datatype Confirmation = Confirmation(credential: Id, step: int, seen: Option<int>)

  predicate HasCredential(rows: Rows, user: Id) {
    exists c :: c in rows && rows[c].user == user
  }

  /** The claiming update affects the row. */
  predicate Claimable(rows: Rows, c: Id, step: int) {
    c in rows && (rows[c].lastUsed.None? || rows[c].lastUsed.value < step)
  }

  function Claim(rows: Rows, c: Id, step: int): (Rows, nat) {
    if Claimable(rows, c, step) then (rows[c := rows[c].(lastUsed := Some(step))], 1) else (rows, 0)
  }

  /** Saving writes changed columns only, by the row's id, and throws when the row is gone. */
  function SaveConfirmation(rows: Rows, p: Confirmation): (Rows, bool) {
    if p.credential !in rows then (rows, false)
    else
      var row := rows[p.credential].(confirmed := true);
      (rows[p.credential := if p.seen == Some(p.step) then row else row.(lastUsed := Some(p.step))], true)
  }

  /** The delete of DisableAsync. */
  function Without(rows: Rows, c: Id): Rows {
    map d | d in rows && d != c :: rows[d]
  }

  /** The TotpCredentials table. */
  class TotpCredentials {
    var next: Id
    var rows: Rows

    constructor ()
      ensures next == 0 && rows == map[]
    {
      next, rows := 0, map[];
    }

    /** EnrollAsync; false stands for ConflictException. A pending enrolment only gets a new secret. */
    method Enroll(user: Id) returns (enrolled: bool)
      modifies this
      ensures enrolled <==> !exists c :: c in old(rows) && old(rows)[c].user == user && old(rows)[c].confirmed
      ensures (forall c :: c in old(rows) ==> old(rows)[c].user != user) ==>
                rows == old(rows)[old(next) := Credential(user, false, None)] && next == old(next) + 1
      ensures (exists c :: c in old(rows) && old(rows)[c].user == user) ==> rows == old(rows) && next == old(next)
    {
      if exists c :: c in rows && rows[c].user == user && rows[c].confirmed {
        return false;
      }
      if !HasCredential(rows, user) {
        rows := rows[next := Credential(user, false, None)];
        next := next + 1;
      }
      enrolled := true;
    }

    /** The end of ConfirmAsync: assign both columns of the entity as it was read, and save. */
    method Save(p: Confirmation) returns (saved: bool)
      modifies this
      ensures (rows, saved) == SaveConfirmation(old(rows), p) && next == old(next)
      ensures saved <==> p.credential in old(rows)
    {
      saved := p.credential in rows;
      if saved {
        var row := rows[p.credential].(confirmed := true);
        if p.seen != Some(p.step) {
          row := row.(lastUsed := Some(p.step));
        }
        rows := rows[p.credential := row];
      }
    }

    /** ConfirmAsync once the code has matched `step`, with nothing between its match and its save. */
    method Confirm(c: Id, step: int)
      requires c in rows
      modifies this
      ensures rows == old(rows)[c := old(rows)[c].(confirmed := true, lastUsed := Some(step))] && next == old(next)
    {
      var _ := Save(Confirmation(c, step, rows[c].lastUsed));
    }

    /** The claim of VerifyAsync: true stands for AuthenticationMethod.Totp. */
    method ClaimStep(p: Pending) returns (accepted: bool)
      modifies this
      ensures rows == Claim(old(rows), p.credential, p.step).0 && next == old(next)
      ensures accepted <==> Claimable(old(rows), p.credential, p.step)
    {
      accepted := false;
      if p.credential in rows {
        var credential := rows[p.credential];
        if credential.lastUsed == None || credential.lastUsed.value < p.step {
          rows := rows[p.credential := credential.(lastUsed := Some(p.step))];
          accepted := true;
        }
      }
    }
  }

  // ---------------------------------------------------------------------------------------------
  // Runs
  // ---------------------------------------------------------------------------------------------

  datatype Action =
    | DoEnroll(user: Id)
    | DoMatch(credential: Id, step: int)
    | DoSave(confirmation: Confirmation)
    | DoRead(credential: Id, step: int)
    | DoClaim(pending: Pending)
    | DoDisable(credential: Id)

  datatype Accepted = Accepted(credential: Id, step: int, readAt: int, at: int)

  /** A request that has read may claim or save at any later time, or never. */
  datatype World = World(next: Id, rows: Rows, pending: multiset<Pending>, confirming: multiset<Confirmation>,
                         accepted: seq<Accepted>, clock: int)

  function Next(w: World, e: Event<Action>): World {
    var w' := w.(clock := e.now);
    match e.action
    case DoEnroll(user) => w'.(next := w.next + 1, rows := w.rows[w.next := Credential(user, false, None)])
    case DoMatch(c, step) =>
      if c in w.rows && Matches(step, e.now) then
        w'.(confirming := w.confirming + multiset{Confirmation(c, step, w.rows[c].lastUsed)})
      else w'
    case DoSave(p) =>
      if p in w.confirming then
        w'.(rows := SaveConfirmation(w.rows, p).0, confirming := w.confirming - multiset{p})
      else w'
    case DoRead(c, step) =>
      if c in w.rows && w.rows[c].confirmed && Matches(step, e.now) then
        w'.(pending := w.pending + multiset{Pending(c, step, e.now)})
      else w'
    case DoClaim(p) =>
      if p in w.pending then
        var (rows, claimed) := Claim(w.rows, p.credential, p.step);
        w'.(rows := rows, pending := w.pending - multiset{p},
            accepted := if claimed == 1 then w.accepted + [Accepted(p.credential, p.step, p.readAt, e.now)]
                        else w.accepted)
      else w'
    case DoDisable(c) =>
      if c in w.rows && w.rows[c].confirmed then w'.(rows := Without(w.rows, c)) else w'
  }

  function Start(clock: int): World {
    World(0, map[], multiset{}, multiset{}, [], clock)
  }

  function Run(w: World, events: seq<Event<Action>>): World {
    if events == [] then w else Next(Run(w, events[..|events| - 1]), events[|events| - 1])
  }

  ghost predicate Increasing(accepted: seq<Accepted>) {
    forall i, j :: 0 <= i < j < |accepted| && accepted[i].credential == accepted[j].credential ==>
      accepted[i].step < accepted[j].step
  }

  /** What every step keeps, replays or not. */
  ghost predicate Sound(w: World) {
    && (forall c :: c in w.rows ==> c < w.next)
    && (forall i :: 0 <= i < |w.accepted| ==> SoundUse(w, w.accepted[i]))
    && (forall p :: p in w.pending ==> SoundPending(w, p))
    && (forall p :: p in w.confirming ==> p.credential < w.next)
  }

  predicate SoundUse(w: World, a: Accepted) {
    && a.credential < w.next && Matches(a.step, a.readAt) && a.readAt <= a.at <= w.clock
    && (a.credential in w.rows ==> w.rows[a.credential].confirmed)
  }

  predicate SoundPending(w: World, p: Pending) {
    && p.credential < w.next && Matches(p.step, p.readAt) && p.readAt <= w.clock
    && (p.credential in w.rows ==> w.rows[p.credential].confirmed)
  }

  /** No row is added, and none loses its confirmation. */
  ghost predicate Kept(rows: Rows, after: Rows) {
    forall c :: c in after ==> c in rows && (rows[c].confirmed ==> after[c].confirmed)
  }

  lemma RowsKept(rows: Rows, p: Confirmation, c: Id, step: int)
    ensures Kept(rows, Claim(rows, c, step).0) && Kept(rows, SaveConfirmation(rows, p).0)
    ensures Kept(rows, Without(rows, c))
  {
  }

  /** What a step does to the rows. */
  lemma NextRows(w: World, e: Event<Action>)
    requires forall c :: c in w.rows ==> c < w.next
    ensures var w' := Next(w, e);
            && w'.clock == e.now && w.next <= w'.next
            && (forall c :: c in w'.rows ==> c < w'.next)
            && (forall c :: c in w'.rows && c < w.next ==>
                  c in w.rows && (w.rows[c].confirmed ==> w'.rows[c].confirmed))
  {
    hide Claim, SaveConfirmation, Without, Matches;
    match e.action
    case DoSave(p) => RowsKept(w.rows, p, 0, 0);
    case DoClaim(p) => RowsKept(w.rows, Confirmation(0, 0, None), p.credential, p.step);
    case DoDisable(c) => RowsKept(w.rows, Confirmation(0, 0, None), c, 0);
    case _ =>
  }

  /** What a step does to the requests under way. */
  lemma NextRequests(w: World, e: Event<Action>)
    ensures var w' := Next(w, e);
            && (forall p :: p in w'.pending ==>
                  p in w.pending || (p.credential in w.rows && w.rows[p.credential].confirmed
                                     && Matches(p.step, p.readAt) && p.readAt == e.now))
            && (forall p :: p in w'.confirming ==> p in w.confirming || p.credential in w.rows)
  {
    hide Next, Matches;
    NextPending(w, e);
    NextConfirming(w, e);
  }

  lemma NextPending(w: World, e: Event<Action>)
    ensures var w' := Next(w, e);
            || w'.pending <= w.pending
            || (&& e.action.DoRead? && e.action.credential in w.rows && w.rows[e.action.credential].confirmed
                && Matches(e.action.step, e.now)
                && w'.pending == w.pending + multiset{Pending(e.action.credential, e.action.step, e.now)})
  {
    hide Claim, SaveConfirmation, Without, Matches;
  }

  lemma NextConfirming(w: World, e: Event<Action>)
    ensures var w' := Next(w, e);
            || w'.confirming <= w.confirming
            || (&& e.action.DoMatch? && e.action.credential in w.rows
                && w'.confirming == w.confirming + multiset{Confirmation(e.action.credential, e.action.step,
                                                                        w.rows[e.action.credential].lastUsed)})
  {
    hide Claim, SaveConfirmation, Without, Matches;
  }

  /** What a step does to the accepted steps. */
  lemma NextAccepted(w: World, e: Event<Action>)
    ensures var w' := Next(w, e);
            w'.accepted != w.accepted ==>
              && e.action.DoClaim? && e.action.pending in w.pending
              && var p := e.action.pending;
                 && Claimable(w.rows, p.credential, p.step)
                 && w'.accepted == w.accepted + [Accepted(p.credential, p.step, p.readAt, e.now)]
  {
    hide SaveConfirmation, Without, Matches;
  }

  lemma NextKeepsSound(w: World, e: Event<Action>)
    requires Sound(w) && w.clock <= e.now
    ensures Sound(Next(w, e))
  {
    NextRows(w, e);
    NextRequests(w, e);
    NextAccepted(w, e);
    hide Next, Matches, Claimable;
    var w' := Next(w, e);
    forall i | 0 <= i < |w'.accepted| ensures SoundUse(w', w'.accepted[i]) {
      if i < |w.accepted| {
        assert SoundUse(w, w.accepted[i]);
      } else {
        assert SoundPending(w, e.action.pending);
      }
    }
    forall p | p in w'.pending ensures SoundPending(w', p) {
      assert p in w.pending ==> SoundPending(w, p);
    }
  }

  lemma StepMonotone(a: int, b: int)
    requires a <= b
    ensures TimeStep(a) <= TimeStep(b)
  {
  }

  // ---------------------------------------------------------------------------------------------
  // Replay
  // ---------------------------------------------------------------------------------------------

  /** Neither a new read nor one already made can claim `a`'s step, or one before it, again. */
  ghost predicate OutOfReach(w: World, a: Accepted) {
    a.credential in w.rows ==>
      && (Claimable(w.rows, a.credential, a.step) ==> a.step < TimeStep(w.clock) - 1)
      && (forall q :: q in w.pending && q.credential == a.credential && Claimable(w.rows, a.credential, q.step) ==>
            a.step < q.step)
  }

  ghost predicate Barred(w: World) {
    forall i :: 0 <= i < |w.accepted| ==> OutOfReach(w, w.accepted[i])
  }

  /** Verifying `p`, from here and now, with its read unless that was made before. */
  function ReadAndClaim(w: World, p: Pending): World {
    Next(Next(w, Event(DoRead(p.credential, p.step), w.clock)), Event(DoClaim(p), w.clock))
  }

  /** Some verification would be accepted for a step at or below an accepted one. */
  ghost predicate Replayable(w: World) {
    exists p :: !Increasing(ReadAndClaim(w, p).accepted)
  }

  lemma ReplayableExactly(w: World)
    requires Sound(w) && Increasing(w.accepted)
    ensures Replayable(w) <==> !Barred(w)
  {
    if Barred(w) {
      forall p ensures Increasing(ReadAndClaim(w, p).accepted) {
        BarredIsSafe(w, p);
      }
    } else {
      var i :| 0 <= i < |w.accepted| && !OutOfReach(w, w.accepted[i]);
      ReachedAgain(w, i);
    }
  }

  lemma ReadKeepsRows(w: World, c: Id, step: int, now: int)
    ensures Next(w, Event(DoRead(c, step), now)).rows == w.rows
  {
  }

  lemma BarredIsSafe(w: World, p: Pending)
    requires Sound(w) && Increasing(w.accepted) && Barred(w)
    ensures Increasing(ReadAndClaim(w, p).accepted)
  {
    hide Next, Sound;
    var read, claim := Event(DoRead(p.credential, p.step), w.clock), Event(DoClaim(p), w.clock);
    ReadKeepsRows(w, p.credential, p.step, w.clock);
    NextRequests(w, read);
    NextAccepted(w, read);
    NextAccepted(Next(w, read), claim);
    if ReadAndClaim(w, p).accepted != w.accepted {
      forall i | 0 <= i < |w.accepted| && w.accepted[i].credential == p.credential
        ensures w.accepted[i].step < p.step
      {
        assert OutOfReach(w, w.accepted[i]);
      }
    }
  }

  lemma ReachedAgain(w: World, i: nat)
    requires Sound(w) && i < |w.accepted| && !OutOfReach(w, w.accepted[i])
    ensures Replayable(w)
  {
    var a := w.accepted[i];
    assert SoundUse(w, a);
    var again := Pending(a.credential, a.step, w.clock);
    var p := again;
    if !Claimable(w.rows, a.credential, a.step) || a.step < TimeStep(w.clock) - 1 {
      var q :| q in w.pending && q.credential == a.credential && Claimable(w.rows, a.credential, q.step)
               && q.step <= a.step;
      p := q;
    } else {
      StepMonotone(a.readAt, w.clock);
    }
    var w' := ReadAndClaim(w, p);
    assert w'.accepted == w.accepted + [Accepted(p.credential, p.step, p.readAt, w.clock)];
    assert w'.accepted[i] == a && w'.accepted[|w.accepted|].step <= a.step;
  }

  /**
    A confirmation saved below an accepted step that a current code, or a read made before, can
    still reach.
  */
  ghost predicate Rewinds(w: World, e: Event<Action>) {
    && e.action.DoSave? && e.action.confirmation in w.confirming
    && var p := e.action.confirmation;
       p.credential in w.rows && p.seen != Some(p.step)
       && exists i :: 0 <= i < |w.accepted| && RewindsBelow(w, p, w.accepted[i], e.now)
  }

  ghost predicate RewindsBelow(w: World, p: Confirmation, a: Accepted, now: int) {
    && a.credential == p.credential && p.step < a.step
    && (TimeStep(now) - 1 <= a.step
        || exists q :: q in w.pending && q.credential == p.credential && p.step < q.step <= a.step)
  }

  /** The save that writes `c`'s step. */
  predicate Writes(w: World, e: Event<Action>, c: Id) {
    && e.action.DoSave? && e.action.confirmation in w.confirming && e.action.confirmation.credential == c
    && c in w.rows && e.action.confirmation.seen != Some(e.action.confirmation.step)
  }

  lemma SaveBelow(w: World, e: Event<Action>, a: Accepted)
    requires Writes(w, e, a.credential)
    ensures OutOfReach(Next(w, e), a) <==> !RewindsBelow(w, e.action.confirmation, a, e.now)
  {
  }

  /** Any other step leaves or raises what is claimable. */
  lemma BarRises(w: World, e: Event<Action>, c: Id, step: int)
    requires c < w.next && !Writes(w, e, c)
    ensures Claimable(Next(w, e).rows, c, step) ==> Claimable(w.rows, c, step)
  {
  }

  lemma ElseStaysOut(w: World, e: Event<Action>, a: Accepted)
    requires Sound(w) && w.clock <= e.now && OutOfReach(w, a) && a.credential < w.next
    requires !Writes(w, e, a.credential)
    ensures OutOfReach(Next(w, e), a)
  {
    var w' := Next(w, e);
    StepMonotone(w.clock, e.now);
    NextRows(w, e);
    NextRequests(w, e);
    BarRises(w, e, a.credential, a.step);
    forall q | q in w'.pending && q.credential == a.credential && Claimable(w'.rows, a.credential, q.step)
      ensures a.credential in w'.rows ==> a.step < q.step
    {
      BarRises(w, e, a.credential, q.step);
      hide Next;
    }
    hide Next;
  }

  lemma ClaimedIsOut(w: World, p: Pending, now: int)
    requires Barred(w) && p in w.pending && Claimable(w.rows, p.credential, p.step)
    ensures OutOfReach(Next(w, Event(DoClaim(p), now)), Accepted(p.credential, p.step, p.readAt, now))
  {
  }

  lemma BarKept(w: World, e: Event<Action>)
    requires Sound(w) && Barred(w) && w.clock <= e.now
    ensures Barred(Next(w, e)) <==> !Rewinds(w, e)
  {
    NextAccepted(w, e);
    hide Next, OutOfReach, RewindsBelow, Matches, Claimable;
    var w' := Next(w, e);
    forall i | 0 <= i < |w'.accepted|
      ensures !Rewinds(w, e) ==> OutOfReach(w', w'.accepted[i])
    {
      if i < |w.accepted| {
        var a := w.accepted[i];
        assert w'.accepted[i] == a && SoundUse(w, a) && OutOfReach(w, a);
        if Writes(w, e, a.credential) {
          SaveBelow(w, e, a);
        } else {
          ElseStaysOut(w, e, a);
        }
      } else {
        ClaimedIsOut(w, e.action.pending, e.now);
      }
    }
    if Rewinds(w, e) {
      var i :| 0 <= i < |w.accepted| && RewindsBelow(w, e.action.confirmation, w.accepted[i], e.now);
      assert Writes(w, e, w.accepted[i].credential) by {
        SameCredential(w, e.action.confirmation, w.accepted[i], e.now);
      }
      SaveBelow(w, e, w.accepted[i]);
      assert w'.accepted[i] == w.accepted[i];
    }
  }

  lemma SameCredential(w: World, p: Confirmation, a: Accepted, now: int)
    requires RewindsBelow(w, p, a, now)
    ensures a.credential == p.credential
  {
  }

  ghost predicate Inv(w: World) {
    Sound(w) && Increasing(w.accepted) && Barred(w)
  }

  /**
    From any state without a replay in reach, a step puts one in reach exactly when it is such a
    confirmation.
  */
  lemma ReplayExactly(w: World, e: Event<Action>)
    requires Inv(w) && w.clock <= e.now
    ensures Replayable(Next(w, e)) <==> Rewinds(w, e)
  {
    hide Next, Rewinds;
    NextKeepsSound(w, e);
    BarKept(w, e);
    NextIncreases(w, e);
    hide Barred, Increasing, Replayable;
    ReplayableExactly(Next(w, e));
  }

  lemma NextIncreases(w: World, e: Event<Action>)
    requires Inv(w)
    ensures Increasing(Next(w, e).accepted)
  {
    if Next(w, e).accepted != w.accepted {
      forall i | 0 <= i < |w.accepted| && w.accepted[i].credential == e.action.pending.credential
        ensures w.accepted[i].step < e.action.pending.step
      {
        assert OutOfReach(w, w.accepted[i]);
      }
    }
  }

  lemma NextKeepsInv(w: World, e: Event<Action>)
    requires Inv(w) && w.clock <= e.now && !Rewinds(w, e)
    ensures Inv(Next(w, e)) && Next(w, e).clock == e.now
  {
    NextKeepsSound(w, e);
    BarKept(w, e);
    NextIncreases(w, e);
  }

  /** A run under a clock that never goes back, without a confirmation that rewinds. */
  ghost predicate Orderly(w: World, events: seq<Event<Action>>) {
    events != [] ==>
      var front, last := events[..|events| - 1], events[|events| - 1];
      var before := Run(w, front);
      Orderly(w, front) && before.clock <= last.now && !Rewinds(before, last)
  }

  lemma {:induction false} RunKeepsInv(w: World, events: seq<Event<Action>>)
    requires Inv(w) && Orderly(w, events)
    ensures Inv(Run(w, events))
  {
    hide Inv, Next, Rewinds;
    if events != [] {
      RunKeepsInv(w, events[..|events| - 1]);
      NextKeepsInv(Run(w, events[..|events| - 1]), events[|events| - 1]);
    }
  }

  /** Over every interleaving of reads, claims and confirmations the accepted steps strictly increase. */
  lemma StepsStrictlyIncrease(clock: int, events: seq<Event<Action>>)
    requires Orderly(Start(clock), events)
    ensures Increasing(Run(Start(clock), events).accepted)
  {
    RunKeepsInv(Start(clock), events);
    hide Run, Orderly;
  }

  lemma {:induction false} RunClock(w: World, events: seq<Event<Action>>)
    ensures Run(w, events).clock == if events == [] then w.clock else events[|events| - 1].now
  {
  }

  ghost predicate NeverReplayable(w: World, events: seq<Event<Action>>) {
    forall k :: 0 <= k <= |events| ==> !Replayable(Run(w, events[..k]))
  }

  /** The runs on which no replay ever comes into reach are exactly the orderly ones. */
  lemma {:induction false} OrderlyExactly(w: World, events: seq<Event<Action>>)
    requires Inv(w) && Timely(w.clock, events)
    ensures Orderly(w, events) <==> NeverReplayable(w, events)
  {
    hide Inv, Next, Rewinds, Replayable;
    if events == [] {
      NotYet(w);
      assert events[..0] == [];
    } else {
      var last := |events| - 1;
      var front := events[..last];
      OrderlyExactly(w, front);
      NeverFront(w, events);
      RunClock(w, front);
      if Orderly(w, front) {
        RunKeepsInv(w, front);
        ReplayExactly(Run(w, front), events[last]);
      }
    }
  }

  lemma NotYet(w: World)
    requires Inv(w)
    ensures !Replayable(w)
  {
    hide Replayable;
    ReplayableExactly(w);
  }

  lemma NeverFront(w: World, events: seq<Event<Action>>)
    requires events != []
    ensures NeverReplayable(w, events) <==>
            NeverReplayable(w, events[..|events| - 1]) && !Replayable(Run(w, events))
  {
    hide Run, Replayable;
    var last := |events| - 1;
    assert events[..|events|] == events;
    assert forall k :: 0 <= k <= last ==> events[..last][..k] == events[..k];
  }

  lemma OneMore(w: World, events: seq<Event<Action>>, e: Event<Action>)
    ensures Run(w, events + [e]) == Next(Run(w, events), e)
    ensures Orderly(w, events + [e]) <==>
            Orderly(w, events) && Run(w, events).clock <= e.now && !Rewinds(Run(w, events), e)
  {
    assert (events + [e])[..|events|] == events;
  }

  /**
    A confirmation that matches one code, lets the next one verify and then saves puts that one in
    reach again, from any state in which both codes are good.
  */
  lemma ReconfirmationReplays(w: World, c: Id, step: int, now: int)
    requires Inv(w) && w.clock <= now && c in w.rows && w.rows[c].confirmed && c < w.next
    requires Matches(step, now) && Matches(step + 1, now)
    requires Claimable(w.rows, c, step + 1) && w.rows[c].lastUsed != Some(step)
    ensures var matched := Next(w, Event(DoMatch(c, step), now));
            var read := Next(matched, Event(DoRead(c, step + 1), now));
            var claimed := Next(read, Event(DoClaim(Pending(c, step + 1, now)), now));
            Replayable(Next(claimed, Event(DoSave(Confirmation(c, step, w.rows[c].lastUsed)), now)))
  {
    hide Inv, Replayable, SaveConfirmation, Without;
    var p, q := Confirmation(c, step, w.rows[c].lastUsed), Pending(c, step + 1, now);
    var matched := Next(w, Event(DoMatch(c, step), now));
    var read := Next(matched, Event(DoRead(c, step + 1), now));
    var claimed := Next(read, Event(DoClaim(q), now));
    NextKeepsInv(w, Event(DoMatch(c, step), now));
    NextKeepsInv(matched, Event(DoRead(c, step + 1), now));
    NextKeepsInv(read, Event(DoClaim(q), now));
    assert claimed.accepted == w.accepted + [Accepted(c, step + 1, now, now)];
    assert RewindsBelow(claimed, p, claimed.accepted[|w.accepted|], now);
    ReplayExactly(claimed, Event(DoSave(p), now));
  }
}
