/** Exactly-once effect: the idempotency ledger makes every repeat of an operation
    id, in the same batch or a later one, a replay of its first result. */
module SyncOnce {
  import opened SyncTypes
  import opened SyncState
  import opened SyncDecide

  datatype Batch = Batch(user: User, items: seq<PushItem>, env: Env)

  datatype Batches = Broken | AllDone(st: State, results: seq<seq<OpResult>>)

  // Committed batches, one after another; Broken when one of them aborts.
  function RunBatches(st: State, batches: seq<Batch>): Batches
    decreases |batches|
  {
    if batches == [] then AllDone(st, [])
    else
      match ApplyItems(st, batches[0].user, batches[0].items, batches[0].env)
      case Aborted(_) => Broken
      case Committed(st1, results) =>
        match RunBatches(st1, batches[1..])
        case Broken => Broken
        case AllDone(st2, more) => AllDone(st2, [results] + more)
  }

  // The items whose operation id is new, given the ids already seen.
  function FirstItems(u: User, items: seq<PushItem>, seen: set<(User, OpId)>): seq<PushItem>
    decreases |items|
  {
    if items == [] then []
    else if (u, items[0].opId) in seen then FirstItems(u, items[1..], seen)
    else [items[0]] + FirstItems(u, items[1..], seen + {(u, items[0].opId)})
  }

  function SeenAfter(u: User, items: seq<PushItem>, seen: set<(User, OpId)>): set<(User, OpId)>
    decreases |items|
  {
    if items == [] then seen else SeenAfter(u, items[1..], seen + {(u, items[0].opId)})
  }

  // The same batches with every repeated operation id after the first removed.
  function WithoutRepeats(batches: seq<Batch>, seen: set<(User, OpId)>): seq<Batch>
    decreases |batches|
  {
    if batches == [] then []
    else
      var b := batches[0];
      [b.(items := FirstItems(b.user, b.items, seen))]
      + WithoutRepeats(batches[1..], SeenAfter(b.user, b.items, seen))
  }

  // An applied operation is in the ledger with its result; older results stay.
  lemma ApplyOneLedger(st: State, u: User, item: PushItem, env: Env)
    requires ApplyOne(st, u, item, env).Done?
    ensures var Done(st', result) := ApplyOne(st, u, item, env);
      && (u, item.opId) in st'.ledger && st'.ledger[(u, item.opId)].result == result
      && ((u, item.opId) !in st.ledger ==> st'.ledger[(u, item.opId)].at == env.now)
      && forall o :: o in st.ledger ==> o in st'.ledger && st'.ledger[o] == st.ledger[o]
  {
    if (u, item.opId) !in st.ledger {
      LedgerUnwritten(st, u, Decide(st.rows, u, item, env).writes, env.now);
    }
  }

  lemma {:induction false} LedgerUnwritten(st: State, u: User, ws: seq<Write>, now: Time)
    ensures WriteAll(st, u, ws, now).ledger == st.ledger
    decreases |ws|
  {
    if ws != [] {
      LedgerUnwritten(ApplyWrite(st, u, ws[0], now), u, ws[1..], now);
    }
  }

  // Every result of a committed batch is the one its id has in the ledger at the end.
  lemma {:induction false} ApplyItemsLedger(st: State, u: User, items: seq<PushItem>, env: Env)
    requires ApplyItems(st, u, items, env).Committed?
    ensures var Committed(st', results) := ApplyItems(st, u, items, env);
      && |results| == |items|
      && (forall i :: 0 <= i < |items| ==> (u, items[i].opId) in st'.ledger
                                           && results[i] == st'.ledger[(u, items[i].opId)].result)
      && forall o :: o in st.ledger ==> o in st'.ledger && st'.ledger[o] == st.ledger[o]
    decreases |items|
  {
    if items != [] {
      ApplyOneLedger(st, u, items[0], env);
      ApplyItemsLedger(ApplyOne(st, u, items[0], env).st, u, items[1..], env);
    }
  }

  lemma {:induction false} ItemsOnce(st: State, u: User, items: seq<PushItem>, env: Env, seen: set<(User, OpId)>)
    requires ApplyItems(st, u, items, env).Committed? && seen <= st.ledger.Keys
    ensures var st' := ApplyItems(st, u, items, env).st;
      && SeenAfter(u, items, seen) <= st'.ledger.Keys
      && ApplyItems(st, u, FirstItems(u, items, seen), env).Committed?
      && ApplyItems(st, u, FirstItems(u, items, seen), env).st == st'
    decreases |items|
  {
    if items != [] {
      var id := (u, items[0].opId);
      var st1 := ApplyOne(st, u, items[0], env).st;
      ApplyOneLedger(st, u, items[0], env);
      ItemsOnce(st1, u, items[1..], env, seen + {id});
      if id in seen {
        assert st1 == st && seen + {id} == seen;
      } else {
        var firsts := FirstItems(u, items, seen);
        assert firsts[0] == items[0] && firsts[1..] == FirstItems(u, items[1..], seen + {id});
      }
    }
  }

  // Exactly-once effect, state: the final rows, log and ledger of any committed
  // batches are those of the batches without the repeats.
  lemma {:induction false} ExactlyOnceState(st: State, batches: seq<Batch>, seen: set<(User, OpId)>)
    requires RunBatches(st, batches).AllDone? && seen <= st.ledger.Keys
    ensures RunBatches(st, WithoutRepeats(batches, seen)).AllDone?
    ensures RunBatches(st, WithoutRepeats(batches, seen)).st == RunBatches(st, batches).st
    decreases |batches|
  {
    if batches != [] {
      var b := batches[0];
      var st1 := ApplyItems(st, b.user, b.items, b.env).st;
      ItemsOnce(st, b.user, b.items, b.env, seen);
      ExactlyOnceState(st1, batches[1..], SeenAfter(b.user, b.items, seen));
      var fewer := WithoutRepeats(batches, seen);
      assert fewer[0] == b.(items := FirstItems(b.user, b.items, seen));
      assert fewer[1..] == WithoutRepeats(batches[1..], SeenAfter(b.user, b.items, seen));
    }
  }

  // Each result of the batch is the one its operation id has in the ledger.
  predicate Answered(ledger: map<(User, OpId), Receipt>, b: Batch, results: seq<OpResult>) {
    && |results| == |b.items|
    && forall i :: 0 <= i < |results| ==> (b.user, b.items[i].opId) in ledger
                                          && results[i] == ledger[(b.user, b.items[i].opId)].result
  }

  lemma {:induction false} BatchesLedger(st: State, batches: seq<Batch>)
    requires RunBatches(st, batches).AllDone?
    ensures var AllDone(st', results) := RunBatches(st, batches);
      && |results| == |batches|
      && (forall i :: 0 <= i < |batches| ==> Answered(st'.ledger, batches[i], results[i]))
      && forall o :: o in st.ledger ==> o in st'.ledger && st'.ledger[o] == st.ledger[o]
    decreases |batches|
  {
    if batches != [] {
      var b := batches[0];
      var st1 := ApplyItems(st, b.user, b.items, b.env).st;
      ApplyItemsLedger(st, b.user, b.items, b.env);
      BatchesLedger(st1, batches[1..]);
      var AllDone(st', results) := RunBatches(st, batches);
      assert results == [ApplyItems(st, b.user, b.items, b.env).results] + RunBatches(st1, batches[1..]).results;
      forall i | 0 <= i < |batches|
        ensures Answered(st'.ledger, batches[i], results[i])
      {
        if i > 0 {
          assert batches[i] == batches[1..][i - 1];
        }
      }
    }
  }

  // Exactly-once effect, answers: every repeat gets its first occurrence's result,
  // wherever in the batches the two stand.
  lemma ExactlyOnceResults(st: State, batches: seq<Batch>, b: nat, i: nat, c: nat, j: nat)
    requires RunBatches(st, batches).AllDone?
    requires b < |batches| && i < |batches[b].items| && c < |batches| && j < |batches[c].items|
    requires batches[b].user == batches[c].user && batches[b].items[i].opId == batches[c].items[j].opId
    ensures var results := RunBatches(st, batches).results;
      && |results| == |batches| && |results[b]| == |batches[b].items| && |results[c]| == |batches[c].items|
      && results[b][i] == results[c][j]
  {
    BatchesLedger(st, batches);
    var AllDone(st', results) := RunBatches(st, batches);
    assert Answered(st'.ledger, batches[b], results[b]) && Answered(st'.ledger, batches[c], results[c]);
  }

  // A request whose operations are all known changes nothing at all.
  lemma {:induction false} ReplayedBatch(st: State, u: User, items: seq<PushItem>, env: Env)
    requires forall i :: 0 <= i < |items| ==> (u, items[i].opId) in st.ledger
    ensures ApplyPush(st, u, items, env) == st
    ensures ApplyItems(st, u, items, env).Committed?
    decreases |items|
  {
    if items != [] {
      ReplayedBatch(st, u, items[1..], env);
    }
  }
}
