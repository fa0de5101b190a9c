/** Which TOTP codes work, told from the run: what a request finds, and which claims are accepted. */
module TotpHistory {
  import opened Events
  import opened Options
  import opened Totp

  /** How many credentials were enrolled; they are numbered in that order. */
  function Enrolled(events: seq<Event<Action>>): nat {
    if events == [] then 0
    else Enrolled(events[..|events| - 1]) + if events[|events| - 1].action.DoEnroll? then 1 else 0
  }

  /** The action saves a confirmation of `c` that a request holds. */
  predicate SavesFor(w: World, action: Action, c: Id) {
    action.DoSave? && action.confirmation in w.confirming && action.confirmation.credential == c
  }

  predicate ClaimsFor(w: World, action: Action, c: Id) {
    action.DoClaim? && action.pending in w.pending && action.pending.credential == c
  }

  /** `c` was enrolled, and not disabled once it was confirmed. */
  predicate Standing(clock: int, events: seq<Event<Action>>, c: Id) {
    events != [] &&
      var front, action := events[..|events| - 1], events[|events| - 1].action;
      || (Standing(clock, front, c) && !(action == DoDisable(c) && Confirmed(clock, front, c)))
      || (action.DoEnroll? && c == Enrolled(front))
  }

  /** A confirmation of `c` was saved while it stood. */
  predicate Confirmed(clock: int, events: seq<Event<Action>>, c: Id) {
    events != [] &&
      var front, action := events[..|events| - 1], events[|events| - 1].action;
      Confirmed(clock, front, c) || (SavesFor(Run(Start(clock), front), action, c) && Standing(clock, front, c))
  }

  predicate Above(last: Option<int>, step: int) {
    last.Some? ==> last.value < step
  }

  /** The step `c` remembers: that of the last claim accepted, or of the last confirmation that wrote its own. */
  function LastStep(clock: int, events: seq<Event<Action>>, c: Id): Option<int> {
    if events == [] then None
    else
      var front, action := events[..|events| - 1], events[|events| - 1].action;
      var w, last := Run(Start(clock), front), LastStep(clock, front, c);
      if !Standing(clock, front, c) then last
      else if SavesFor(w, action, c) && action.confirmation.seen != Some(action.confirmation.step)
      then Some(action.confirmation.step)
      else if ClaimsFor(w, action, c) && Above(last, action.pending.step) then Some(action.pending.step)
      else last
  }

  lemma {:induction false} NotYet(clock: int, events: seq<Event<Action>>, c: Id)
    requires c >= Enrolled(events)
    ensures !Standing(clock, events, c) && !Confirmed(clock, events, c) && LastStep(clock, events, c) == None
  {
    if events != [] {
      NotYet(clock, events[..|events| - 1], c);
    }
  }

  ghost predicate AsTold(clock: int, events: seq<Event<Action>>, w: World, c: Id) {
    && w.next == Enrolled(events)
    && (c in w.rows <==> Standing(clock, events, c))
    && (c in w.rows ==>
          w.rows[c].confirmed == Confirmed(clock, events, c) && w.rows[c].lastUsed == LastStep(clock, events, c))
  }

  lemma {:induction false} RowsAsTold(clock: int, events: seq<Event<Action>>, c: Id)
    ensures AsTold(clock, events, Run(Start(clock), events), c)
  {
    hide Next;
    if events != [] {
      var front, last := events[..|events| - 1], events[|events| - 1];
      RowsAsTold(clock, front, c);
      if c >= Enrolled(front) {
        NotYet(clock, front, c);
      }
      NextAsTold(clock, front, last, Run(Start(clock), front), c);
      assert events == front + [last];
    }
  }

  lemma NextAsTold(clock: int, front: seq<Event<Action>>, last: Event<Action>, w: World, c: Id)
    requires w == Run(Start(clock), front) && AsTold(clock, front, w, c)
    requires c >= Enrolled(front) ==>
               !Standing(clock, front, c) && !Confirmed(clock, front, c) && LastStep(clock, front, c) == None
    ensures AsTold(clock, front + [last], Next(w, last), c)
  {
    hide Run, Matches, Next, Above, SavesFor, ClaimsFor;
    NextRow(w, last, c);
    assert (front + [last])[..|front|] == front;
  }

  ghost predicate RowStep(w: World, e: Event<Action>, c: Id, w': World) {
    && w'.next == w.next + (if e.action.DoEnroll? then 1 else 0)
    && (c in w'.rows <==>
          || (c in w.rows && !(e.action == DoDisable(c) && w.rows[c].confirmed))
          || (e.action.DoEnroll? && c == w.next))
    && (c in w'.rows && e.action.DoEnroll? && c == w.next ==> !w'.rows[c].confirmed && w'.rows[c].lastUsed == None)
    && (c in w'.rows && c in w.rows && !(e.action.DoEnroll? && c == w.next) ==>
          && w'.rows[c].confirmed == (w.rows[c].confirmed || SavesFor(w, e.action, c))
          && w'.rows[c].lastUsed ==
             if SavesFor(w, e.action, c) && e.action.confirmation.seen != Some(e.action.confirmation.step)
             then Some(e.action.confirmation.step)
             else if ClaimsFor(w, e.action, c) && Above(w.rows[c].lastUsed, e.action.pending.step)
             then Some(e.action.pending.step)
             else w.rows[c].lastUsed)
  }

  /** What a step does to one row. */
  lemma NextRow(w: World, e: Event<Action>, c: Id)
    ensures RowStep(w, e, c, Next(w, e))
  {
    hide RowStep, Next;
    match e.action
    case DoSave(_) => SavedRow(w, e, c);
    case DoClaim(_) => ClaimedRow(w, e, c);
    case _ => OtherRow(w, e, c);
  }

  lemma SavedRow(w: World, e: Event<Action>, c: Id)
    requires e.action.DoSave?
    ensures RowStep(w, e, c, Next(w, e))
  {
    hide Matches, Claim, Without;
  }

  lemma ClaimedRow(w: World, e: Event<Action>, c: Id)
    requires e.action.DoClaim?
    ensures RowStep(w, e, c, Next(w, e))
  {
    hide Matches, SaveConfirmation, Without;
  }

  lemma OtherRow(w: World, e: Event<Action>, c: Id)
    requires !e.action.DoSave? && !e.action.DoClaim?
    ensures RowStep(w, e, c, Next(w, e))
  {
    hide Matches, Claim, SaveConfirmation;
  }

  /** The step's code is good at `now`: it is the current step of 30 seconds or one next to it. */
  predicate Good(step: int, now: int) {
    step - 1 <= now / (30 * 10_000_000) <= step + 1
  }

  /**
    Over every interleaving: a verification gets to its claim exactly if the credential stands, is
    confirmed and the code is good; its claim is accepted exactly if the credential still stands and its
    step is above the one remembered. A confirmation only needs a good code. Each request claims or
    saves once.
  */
  lemma WorksExactly(clock: int, events: seq<Event<Action>>, c: Id, step: int, p: Pending, q: Confirmation, now: int)
    ensures var w := Run(Start(clock), events);
            && Next(w, Event(DoRead(c, step), now)).pending ==
               (if Standing(clock, events, c) && Confirmed(clock, events, c) && Good(step, now)
                then w.pending + multiset{Pending(c, step, now)} else w.pending)
            && Next(w, Event(DoMatch(c, step), now)).confirming ==
               (if Standing(clock, events, c) && Good(step, now)
                then w.confirming + multiset{Confirmation(c, step, LastStep(clock, events, c))} else w.confirming)
            && Next(w, Event(DoClaim(p), now)).accepted ==
               (if p in w.pending && Standing(clock, events, p.credential)
                   && Above(LastStep(clock, events, p.credential), p.step)
                then w.accepted + [Accepted(p.credential, p.step, p.readAt, now)] else w.accepted)
            && Next(w, Event(DoClaim(p), now)).pending == w.pending - multiset{p}
            && Next(w, Event(DoSave(q), now)).confirming == w.confirming - multiset{q}
  {
    hide Run, Standing, Confirmed, LastStep, Next, Good, Above;
    RowsAsTold(clock, events, c);
    RowsAsTold(clock, events, p.credential);
    NextRead(Run(Start(clock), events), c, step, now);
    NextClaim(Run(Start(clock), events), p, now);
    NextSave(Run(Start(clock), events), q, now);
  }

  lemma NextRead(w: World, c: Id, step: int, now: int)
    ensures Next(w, Event(DoRead(c, step), now)).pending ==
            if c in w.rows && w.rows[c].confirmed && Good(step, now) then w.pending + multiset{Pending(c, step, now)}
            else w.pending
    ensures Next(w, Event(DoMatch(c, step), now)).confirming ==
            if c in w.rows && Good(step, now)
            then w.confirming + multiset{Confirmation(c, step, w.rows[c].lastUsed)} else w.confirming
  {
    assert Good(step, now) <==> Matches(step, now);
    hide Good, Matches;
  }

  lemma NextClaim(w: World, p: Pending, now: int)
    ensures Next(w, Event(DoClaim(p), now)).accepted ==
            if p in w.pending && p.credential in w.rows && Above(w.rows[p.credential].lastUsed, p.step)
            then w.accepted + [Accepted(p.credential, p.step, p.readAt, now)] else w.accepted
    ensures Next(w, Event(DoClaim(p), now)).pending == w.pending - multiset{p}
  {
    hide Matches;
  }

  lemma NextSave(w: World, q: Confirmation, now: int)
    ensures Next(w, Event(DoSave(q), now)).confirming == w.confirming - multiset{q}
  {
    hide Matches, Claim, Without;
  }
}
