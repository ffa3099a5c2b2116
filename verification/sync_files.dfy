/** Batch atomicity, files included: which attachment files a push request removes
    after its commit (the post-commit hooks of internal/sync/service.go). */
module SyncFiles {
  import opened Options
  import opened SyncTypes
  import opened SyncMerge
  import opened SyncState
  import opened SyncDecide
  import opened SyncCascade
  import opened SyncRuns
  import opened SyncVersions

  // The directory of one attachment's files.
  type Files = set<(User, Id)>

  predicate DeletesAttachment(item: PushItem, id: Id) {
    item.kind == Some(Attachment) && item.op.PushDelete? && item.id == id
  }

  // The hook an operation registers inside the transaction.
  function HookOf(st: State, u: User, item: PushItem): seq<Id> {
    if (u, item.opId) !in st.ledger && DeletesAttachment(item, item.id) && LiveRow(st.rows, u, Key(Attachment, item.id))
    then [item.id] else []
  }

  function Hooks(st: State, u: User, items: seq<PushItem>, env: Env): seq<Id>
    decreases |items|
  {
    if items == [] then []
    else
      match ApplyOne(st, u, items[0], env)
      case Failed => []
      case Done(st1, _) => HookOf(st, u, items[0]) + Hooks(st1, u, items[1..], env)
  }

  function Reaped(u: User, ids: seq<Id>): Files {
    set i | 0 <= i < |ids| :: (u, ids[i])
  }

  // Files whose attachment rows the cleanup removes.
  function ExpiredFiles(rows: Rows, cutoff: Time): Files {
    set k | k in rows && k.kind == Attachment && Expired(rows[k], cutoff) :: (rows[k].user, k.id)
  }

  function FilesAfter(st: State, files: Files, e: Event): Files {
    match e
    case Push(u, items, env) =>
      if ApplyItems(st, u, items, env).Committed? then files - Reaped(u, Hooks(st, u, items, env)) else files
    case Clean(cutoff) => files - ExpiredFiles(st.rows, cutoff)
    case Purge(_) => files
  }

  // The state in which the batch's i-th operation runs.
  function Before(st: State, u: User, items: seq<PushItem>, env: Env, i: nat): State
    requires i <= |items| && ApplyItems(st, u, items, env).Committed?
    decreases i
  {
    if i == 0 then st else Before(ApplyOne(st, u, items[0], env).st, u, items[1..], env, i - 1)
  }

  // The i-th operation is an explicit delete that moves the attachment from live to deleted.
  predicate Tombstones(st: State, u: User, items: seq<PushItem>, env: Env, i: nat, id: Id)
    requires i < |items| && ApplyItems(st, u, items, env).Committed?
  {
    && DeletesAttachment(items[i], id)
    && LiveRow(Before(st, u, items, env, i).rows, u, Key(Attachment, id))
    && !LiveRow(Before(st, u, items, env, i + 1).rows, u, Key(Attachment, id))
  }

  lemma HookIsTombstone(st: State, u: User, item: PushItem, env: Env, id: Id)
    requires Inv(st) && ApplyOne(st, u, item, env).Done?
    ensures id in HookOf(st, u, item) <==>
              DeletesAttachment(item, id) && LiveRow(st.rows, u, Key(Attachment, id))
              && !LiveRow(ApplyOne(st, u, item, env).st.rows, u, Key(Attachment, id))
  {
    var key := Key(Attachment, id);
    if (u, item.opId) !in st.ledger && DeletesAttachment(item, id) && LiveRow(st.rows, u, key) {
      DeleteExactRows(st, u, key, env.scan, env.now);
      ReachedSelf(st.rows, u, key);
    }
  }

  // Exactly the attachments that an explicit delete of the batch moved from live to
  // deleted are reaped: not those a cascade deleted, not on a replay or a re-delete.
  lemma {:induction false} HooksExact(st: State, u: User, items: seq<PushItem>, env: Env, id: Id)
    requires Inv(st) && st.clock <= env.now && ApplyItems(st, u, items, env).Committed?
    ensures id in Hooks(st, u, items, env) <==>
              exists i :: 0 <= i < |items| && Tombstones(st, u, items, env, i, id)
    decreases |items|
  {
    if items != [] {
      var st1, rest := ApplyOne(st, u, items[0], env).st, items[1..];
      ApplyOneInv(st, u, items[0], env);
      HookIsTombstone(st, u, items[0], env, id);
      HooksExact(st1, u, rest, env, id);
      assert Before(st, u, items, env, 1) == Before(st1, u, rest, env, 0) == st1;
      if id in HookOf(st, u, items[0]) {
        assert Tombstones(st, u, items, env, 0, id);
      }
      if i :| 0 <= i < |rest| && Tombstones(st1, u, rest, env, i, id) {
        assert Tombstones(st, u, items, env, i + 1, id);
      }
      if i :| 0 <= i < |items| && Tombstones(st, u, items, env, i, id) {
        if i > 0 {
          assert Tombstones(st1, u, rest, env, i - 1, id);
        } else {
          assert id in HookOf(st, u, items[0]);
        }
      }
    }
  }

  // A deleted attachment is not reaped again, and a reaped one is deleted when the
  // batch commits.
  lemma {:induction false} HookedAreGone(st: State, u: User, items: seq<PushItem>, env: Env, id: Id)
    requires Inv(st) && st.clock <= env.now && ApplyItems(st, u, items, env).Committed?
    ensures var key := Key(Attachment, id);
      && (key in st.rows && !st.rows[key].Live() ==> id !in Hooks(st, u, items, env))
      && (id in Hooks(st, u, items, env) ==>
            var rows' := ApplyItems(st, u, items, env).st.rows;
            key in rows' && rows'[key].user == u && !rows'[key].Live())
    decreases |items|
  {
    if items != [] {
      var key := Key(Attachment, id);
      var st1 := ApplyOne(st, u, items[0], env).st;
      ApplyOneInv(st, u, items[0], env);
      OneAdvances(st, u, items[0], env);
      HookedAreGone(st1, u, items[1..], env, id);
      HookIsTombstone(st, u, items[0], env, id);
      ItemsAdvance(st1, u, items[1..], env);
      if id in HookOf(st, u, items[0]) {
        assert Later(st.rows[key], st1.rows[key]);
      }
    }
  }

  predicate Distinct(ids: seq<Id>) {
    forall i, j :: 0 <= i < j < |ids| ==> ids[i] != ids[j]
  }

  // What one operation hooks, the rest of the batch does not.
  lemma HookedOnceInBatch(st: State, u: User, items: seq<PushItem>, env: Env)
    requires Inv(st) && st.clock <= env.now && items != [] && ApplyItems(st, u, items, env).Committed?
    ensures var st1 := ApplyOne(st, u, items[0], env).st;
      forall id :: id in HookOf(st, u, items[0]) ==> id !in Hooks(st1, u, items[1..], env)
  {
    var id, st1 := items[0].id, ApplyOne(st, u, items[0], env).st;
    if id in HookOf(st, u, items[0]) {
      ApplyOneInv(st, u, items[0], env);
      HookIsTombstone(st, u, items[0], env, id);
      OneAdvances(st, u, items[0], env);
      assert Later(st.rows[Key(Attachment, id)], st1.rows[Key(Attachment, id)]);
      HookedAreGone(st1, u, items[1..], env, id);
    }
  }

  lemma ThenDistinct(first: seq<Id>, rest: seq<Id>)
    requires |first| <= 1 && Distinct(rest) && forall id :: id in first ==> id !in rest
    ensures Distinct(first + rest)
  {
    if first == [] {
      assert first + rest == rest;
    } else {
      assert first[0] in first;
    }
  }

  // Each file directory is reaped at most once by a batch.
  lemma {:induction false} HooksDistinct(st: State, u: User, items: seq<PushItem>, env: Env)
    requires Inv(st) && st.clock <= env.now && ApplyItems(st, u, items, env).Committed?
    ensures Distinct(Hooks(st, u, items, env))
    decreases |items|
  {
    if items != [] {
      var st1 := ApplyOne(st, u, items[0], env).st;
      ApplyOneInv(st, u, items[0], env);
      HooksDistinct(st1, u, items[1..], env);
      HookedOnceInBatch(st, u, items, env);
      ThenDistinct(HookOf(st, u, items[0]), Hooks(st1, u, items[1..], env));
    }
  }

  // Once reaped, never reaped again by any later request while the tombstone stays.
  lemma ReapedOnce(st: State, u: User, items: seq<PushItem>, env: Env, id: Id, events: seq<Event>,
                   v: User, later: seq<PushItem>, env': Env)
    requires Inv(st) && st.clock <= env.now && ApplyItems(st, u, items, env).Committed? && id in Hooks(st, u, items, env)
    requires var st1 := ApplyPush(st, u, items, env);
      AllTimely(st1, events + [Push(v, later, env')]) && Kept(st1, events, Key(Attachment, id))
    requires ApplyItems(Run(ApplyPush(st, u, items, env), events), v, later, env').Committed?
    ensures id !in Hooks(Run(ApplyPush(st, u, items, env), events), v, later, env')
  {
    var st1 := ApplyPush(st, u, items, env);
    ApplyPushInv(st, u, items, env);
    HookedAreGone(st, u, items, env, id);
    TimelySplits(st1, events, Push(v, later, env'));
    RunInv(st1, events);
    TombstoneFinal(st1, events, Key(Attachment, id));
    HookedAreGone(Run(st1, events), v, later, env', id);
  }

  lemma {:induction false} TimelySplits(st: State, events: seq<Event>, last: Event)
    requires AllTimely(st, events + [last])
    ensures AllTimely(st, events) && Timely(Run(st, events), last)
    decreases |events|
  {
    if events == [] {
      assert (events + [last])[0] == last;
    } else {
      assert (events + [last])[1..] == events[1..] + [last];
      TimelySplits(After(st, events[0]), events[1..], last);
    }
  }

  // An aborted batch changes no row, no log entry, no ledger entry and no file.
  lemma AbortChangesNothing(st: State, files: Files, u: User, items: seq<PushItem>, env: Env)
    requires Inv(st) && st.clock <= env.now && ApplyItems(st, u, items, env).Aborted?
    ensures var st' := ApplyPush(st, u, items, env);
      && st' == st.(lastSeq := st'.lastSeq) && st.lastSeq <= st'.lastSeq
      && FilesAfter(st, files, Push(u, items, env)) == files
  {
    ApplyPushInv(st, u, items, env);
  }

  // Resubmitting a request whose operations are all known touches no file either.
  lemma {:induction false} ReplayReapsNothing(st: State, u: User, items: seq<PushItem>, env: Env)
    requires forall i :: 0 <= i < |items| ==> (u, items[i].opId) in st.ledger
    ensures Hooks(st, u, items, env) == []
    decreases |items|
  {
    if items != [] {
      ReplayReapsNothing(st, u, items[1..], env);
    }
  }

  // Whatever happens, the file of an attachment that is live afterwards is kept.
  lemma LiveFilesStay(st: State, files: Files, e: Event, u: User, id: Id)
    requires Inv(st) && Timely(st, e) && (u, id) in files
    requires LiveRow(After(st, e).rows, u, Key(Attachment, id))
    ensures (u, id) in FilesAfter(st, files, e)
  {
    if e.Push? && e.user == u && ApplyItems(st, u, e.items, e.env).Committed? {
      HookedAreGone(st, u, e.items, e.env, id);
    }
  }

  // An explicit delete that the request commits moves the user's attachment from live to
  // deleted.
  predicate CommitsDelete(st: State, u: User, items: seq<PushItem>, env: Env, id: Id) {
    && ApplyItems(st, u, items, env).Committed?
    && exists i :: 0 <= i < |items| && Tombstones(st, u, items, env, i, id)
  }

  // Which files go, exactly: by such a request of their user, or by a cleanup whose cutoff
  // has passed the attachment's tombstone.
  lemma FileGoesIff(st: State, files: Files, e: Event, u: User, id: Id)
    requires Inv(st) && Timely(st, e) && (u, id) in files
    ensures var key := Key(Attachment, id);
      (u, id) !in FilesAfter(st, files, e) <==>
        || (e.Push? && e.user == u && CommitsDelete(st, u, e.items, e.env, id))
        || (e.Clean? && key in st.rows && st.rows[key].user == u
            && st.rows[key].deletedAt.Some? && st.rows[key].deletedAt.value < e.cutoff)
  {
    if e.Push? && e.user == u && ApplyItems(st, u, e.items, e.env).Committed? {
      HooksExact(st, u, e.items, e.env, id);
      ReapedIds(u, Hooks(st, u, e.items, e.env), id);
    }
    assert Key(Attachment, id).kind == Attachment && Key(Attachment, id).id == id;
  }

  lemma ReapedIds(u: User, ids: seq<Id>, id: Id)
    ensures (u, id) in Reaped(u, ids) <==> id in ids
  {
  }
}
