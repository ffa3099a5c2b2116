/** What a cleanup and a purge leave, and exactly-once effect over whole runs: a
    receipt is kept, and its operation replayed, exactly until a cutoff passes it. */
module SyncReplay {
  import opened SyncTypes
  import opened SyncState
  import opened SyncDecide
  import opened SyncRuns
  import opened SyncOnce

  // ----- one cleanup, one purge -----

  lemma {:induction false} RecentEntry(log: seq<LogEntry>, cutoff: Time, e: LogEntry)
    ensures e in Recent(log, cutoff) <==> e in log && e.createdAt >= cutoff
  {
    if log != [] {
      var n := |log| - 1;
      RecentEntry(log[..n], cutoff, e);
      assert log == log[..n] + [log[n]];
    }
  }

  // A cleanup removes exactly the tombstones, change entries and ledger results that are
  // older than the cutoff; what stays is as it was.
  lemma CleanIff(st: State, cutoff: Time, key: Key, e: LogEntry, o: (User, OpId))
    ensures var st' := After(st, Clean(cutoff));
      && (key in st'.rows <==> key in st.rows && (st.rows[key].deletedAt.None? || st.rows[key].deletedAt.value >= cutoff))
      && (key in st'.rows ==> st'.rows[key] == st.rows[key])
      && (e in st'.log <==> e in st.log && e.createdAt >= cutoff)
      && (o in st'.ledger <==> o in st.ledger && st.ledger[o].at >= cutoff)
      && (o in st'.ledger ==> st'.ledger[o] == st.ledger[o])
      && st'.lastSeq == st.lastSeq
  {
    RecentEntry(st.log, cutoff, e);
  }

  lemma {:induction false} OthersEntry(log: seq<LogEntry>, u: User, e: LogEntry)
    ensures e in OthersLog(log, u) <==> e in log && e.user != u
  {
    if log != [] {
      var n := |log| - 1;
      OthersEntry(log[..n], u, e);
      assert log == log[..n] + [log[n]];
    }
  }

  // A purge removes exactly the user's rows, change entries and ledger results.
  lemma PurgeIff(st: State, u: User, key: Key, e: LogEntry, o: (User, OpId))
    ensures var st' := After(st, Purge(u));
      && (key in st'.rows <==> key in st.rows && st.rows[key].user != u)
      && (key in st'.rows ==> st'.rows[key] == st.rows[key])
      && (e in st'.log <==> e in st.log && e.user != u)
      && (o in st'.ledger <==> o in st.ledger && o.0 != u)
      && (o in st'.ledger ==> st'.ledger[o] == st.ledger[o])
      && st'.lastSeq == st.lastSeq
  {
    OthersEntry(st.log, u, e);
  }

  // ----- how long a receipt is kept -----

  // The step forgets the receipt: a cleanup whose cutoff has passed its time, or a purge
  // of its user.
  predicate Forgets(e: Event, o: (User, OpId), at: Time) {
    (e.Clean? && at < e.cutoff) || (e.Purge? && e.who == o.0)
  }

  predicate Remembered(events: seq<Event>, o: (User, OpId), at: Time) {
    forall i :: 0 <= i < |events| ==> !Forgets(events[i], o, at)
  }

  // The request carries this operation of this user.
  predicate Resends(e: Event, o: (User, OpId)) {
    e.Push? && e.user == o.0 && exists i :: 0 <= i < |e.items| && e.items[i].opId == o.1
  }

  lemma ReceiptKept(st: State, e: Event, o: (User, OpId))
    requires o in st.ledger && !Forgets(e, o, st.ledger[o].at)
    ensures o in After(st, e).ledger && After(st, e).ledger[o] == st.ledger[o]
  {
    if e.Push? && ApplyItems(st, e.user, e.items, e.env).Committed? {
      ApplyItemsLedger(st, e.user, e.items, e.env);
    }
  }

  // Whatever else runs, repeats included, a remembered receipt stays as it is.
  lemma {:induction false} ReceiptOverRun(st: State, events: seq<Event>, o: (User, OpId))
    requires o in st.ledger && Remembered(events, o, st.ledger[o].at)
    ensures o in Run(st, events).ledger && Run(st, events).ledger[o] == st.ledger[o]
    decreases |events|
  {
    if events != [] {
      ReceiptKept(st, events[0], o);
      assert Remembered(events[1..], o, st.ledger[o].at);
      ReceiptOverRun(After(st, events[0]), events[1..], o);
    }
  }

  lemma {:induction false} ItemsKeepUnknown(st: State, u: User, items: seq<PushItem>, env: Env, o: (User, OpId))
    requires o !in st.ledger && ApplyItems(st, u, items, env).Committed?
    requires u != o.0 || forall i :: 0 <= i < |items| ==> items[i].opId != o.1
    ensures o !in ApplyItems(st, u, items, env).st.ledger
    decreases |items|
  {
    if items != [] {
      if (u, items[0].opId) !in st.ledger {
        LedgerUnwritten(st, u, Decide(st.rows, u, items[0], env).writes, env.now);
      }
      ItemsKeepUnknown(ApplyOne(st, u, items[0], env).st, u, items[1..], env, o);
    }
  }

  lemma UnknownStays(st: State, e: Event, o: (User, OpId))
    requires o !in st.ledger && !Resends(e, o)
    ensures o !in After(st, e).ledger
  {
    if e.Push? && ApplyItems(st, e.user, e.items, e.env).Committed? {
      ItemsKeepUnknown(st, e.user, e.items, e.env, o);
    }
  }

  lemma {:induction false} UnknownOverRun(st: State, events: seq<Event>, o: (User, OpId))
    requires o !in st.ledger && forall i :: 0 <= i < |events| ==> !Resends(events[i], o)
    ensures o !in Run(st, events).ledger
    decreases |events|
  {
    if events != [] {
      UnknownStays(st, events[0], o);
      UnknownOverRun(After(st, events[0]), events[1..], o);
    }
  }

  // Until the operation is sent again its receipt is kept exactly while no cutoff has
  // passed its time and its user is not purged.
  lemma {:induction false} ReceiptIff(st: State, events: seq<Event>, o: (User, OpId))
    requires o in st.ledger && forall i :: 0 <= i < |events| ==> !Resends(events[i], o)
    ensures o in Run(st, events).ledger <==> Remembered(events, o, st.ledger[o].at)
    decreases |events|
  {
    if events != [] {
      var at := st.ledger[o].at;
      if Forgets(events[0], o, at) {
        assert o !in After(st, events[0]).ledger;
        UnknownOverRun(After(st, events[0]), events[1..], o);
      } else {
        ReceiptKept(st, events[0], o);
        ReceiptIff(After(st, events[0]), events[1..], o);
        assert Remembered(events, o, at) <==> Remembered(events[1..], o, at) by {
          assert events == [events[0]] + events[1..];
        }
      }
    }
  }

  // ----- a repeat over whole runs -----

  // A repeat of an answered operation, however different what it asks for, gets the first
  // answer and changes nothing, exactly while its receipt is remembered: later it is
  // decided anew.
  lemma ReplayIff(st: State, events: seq<Event>, u: User, again: PushItem, env: Env)
    requires (u, again.opId) in st.ledger
    requires forall i :: 0 <= i < |events| ==> !Resends(events[i], (u, again.opId))
    ensures var o, st2 := (u, again.opId), Run(st, events);
      ApplyOne(st2, u, again, env) == Done(st2, st.ledger[o].result) <==> Remembered(events, o, st.ledger[o].at)
  {
    var o, st2 := (u, again.opId), Run(st, events);
    ReceiptIff(st, events, o);
    if Remembered(events, o, st.ledger[o].at) {
      ReceiptOverRun(st, events, o);
    } else if ApplyOne(st2, u, again, env).Done? {
      ApplyOneLedger(st2, u, again, env);
    }
  }

  // An operation applied at time now is replayed exactly while no cutoff after now and no
  // purge of its user has come between.
  lemma AnsweredOnceIff(st: State, u: User, item: PushItem, env: Env, events: seq<Event>, again: PushItem, env': Env)
    requires (u, item.opId) !in st.ledger && ApplyOne(st, u, item, env).Done? && again.opId == item.opId
    requires forall i :: 0 <= i < |events| ==> !Resends(events[i], (u, item.opId))
    ensures var Done(st1, result) := ApplyOne(st, u, item, env);
      var st2 := Run(st1, events);
      ApplyOne(st2, u, again, env') == Done(st2, result) <==>
        forall i :: 0 <= i < |events| ==>
          (events[i].Clean? ==> events[i].cutoff <= env.now) && (events[i].Purge? ==> events[i].who != u)
  {
    ApplyOneLedger(st, u, item, env);
    ReplayIff(ApplyOne(st, u, item, env).st, events, u, again, env');
    RememberedIff(events, (u, item.opId), env.now);
  }

  lemma RememberedIff(events: seq<Event>, o: (User, OpId), at: Time)
    ensures Remembered(events, o, at) <==>
      forall i :: 0 <= i < |events| ==>
        (events[i].Clean? ==> events[i].cutoff <= at) && (events[i].Purge? ==> events[i].who != o.0)
  {
  }

  // Exactly-once effect over whole runs, repeats, cleanups and other users' purges in
  // between: while the receipt of an operation in a committed request is remembered, any
  // later committed request that repeats it gets its first answer, and leaves what the
  // request would leave without the repeat.
  lemma ExactlyOnceOverRuns(st: State, u: User, items: seq<PushItem>, env: Env, i: nat, events: seq<Event>,
                            later: seq<PushItem>, env': Env, j: nat)
    requires ApplyItems(st, u, items, env).Committed? && i < |items|
    requires j < |later| && later[j].opId == items[i].opId
    requires var st1, o := ApplyPush(st, u, items, env), (u, items[i].opId);
      o in st1.ledger ==> Remembered(events, o, st1.ledger[o].at)
    requires ApplyItems(Run(ApplyPush(st, u, items, env), events), u, later, env').Committed?
    ensures var o, st2 := (u, items[i].opId), Run(ApplyPush(st, u, items, env), events);
      && |ApplyItems(st, u, items, env).results| == |items| && |ApplyItems(st2, u, later, env').results| == |later|
      && ApplyItems(st2, u, later, env').results[j] == ApplyItems(st, u, items, env).results[i]
      && ApplyPush(st2, u, FirstItems(u, later, {o}), env') == ApplyPush(st2, u, later, env')
  {
    var o, st1 := (u, items[i].opId), ApplyPush(st, u, items, env);
    var st2 := Run(st1, events);
    ApplyItemsLedger(st, u, items, env);
    ReceiptOverRun(st1, events, o);
    ApplyItemsLedger(st2, u, later, env');
    ItemsOnce(st2, u, later, env', {o});
  }
}
