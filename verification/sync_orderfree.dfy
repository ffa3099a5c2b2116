/** Merges that do not depend on the order in which devices push: corrections (the
    newest edit wins) and study activities (time only grows, terminal states stick). */
module SyncOrderFree {
  import opened Options
  import opened SyncTypes
  import opened SyncMerge
  import opened SyncState
  import opened SyncDecide
  import opened SyncCascade
  import opened SyncRuns
  import opened SyncVersions
  import SyncLaws

  // ----- the accepted edits of one row over a run -----

  // What one accepted upsert of an existing row brought.
  datatype Edit = Edit(payload: Payload, now: Time)

  predicate Edits1(st: State, u: User, item: PushItem, env: Env, key: Key) {
    Merges(st, u, item, env) && key == Key(item.kind.value, item.id)
  }

  function EditsInBatch(st: State, u: User, items: seq<PushItem>, env: Env, key: Key): seq<Edit>
    decreases |items|
  {
    if items == [] then []
    else
      match ApplyOne(st, u, items[0], env)
      case Failed => []
      case Done(st1, _) =>
        (if Edits1(st, u, items[0], env, key) then [Edit(items[0].payload, env.now)] else [])
        + EditsInBatch(st1, u, items[1..], env, key)
  }

  function EditsInEvent(st: State, e: Event, key: Key): seq<Edit> {
    if e.Push? && ApplyItems(st, e.user, e.items, e.env).Committed? then EditsInBatch(st, e.user, e.items, e.env, key) else []
  }

  // The edits of committed batches, in commit order.
  function EditsOf(st: State, events: seq<Event>, key: Key): seq<Edit>
    decreases |events|
  {
    if events == [] then [] else EditsInEvent(st, events[0], key) + EditsOf(After(st, events[0]), events[1..], key)
  }

  function MergeAll(b: Body, edits: seq<Edit>): Body
    decreases |edits|
  {
    if edits == [] then b else MergeAll(MergeBody(b, edits[0].payload, edits[0].now), edits[1..])
  }

  lemma {:induction false} MergeAllAppend(b: Body, a: seq<Edit>, c: seq<Edit>)
    ensures MergeAll(b, a + c) == MergeAll(MergeAll(b, a), c)
    decreases |a|
  {
    if a == [] {
      assert a + c == c;
    } else {
      assert (a + c)[1..] == a[1..] + c;
      MergeAllAppend(MergeBody(b, a[0].payload, a[0].now), a[1..], c);
    }
  }

  predicate AllRequired(kind: Kind, edits: seq<Edit>) {
    forall i :: 0 <= i < |edits| ==> Required(kind, edits[i].payload)
  }

  lemma BodyAfterDelete(st: State, u: User, own: Key, item: PushItem, env: Env, key: Key)
    requires Inv(st) && DecideDelete(st.rows, u, own, item, env).Do? && key in st.rows && st.rows[key].Live()
    requires var rows' := WriteAll(st, u, DecideDelete(st.rows, u, own, item, env).writes, env.now).rows;
      key in rows' && rows'[key].Live()
    ensures WriteAll(st, u, DecideDelete(st.rows, u, own, item, env).writes, env.now).rows[key].content.body ==
            st.rows[key].content.body
  {
    var ws := DecideDelete(st.rows, u, own, item, env).writes;
    if LiveRow(st.rows, u, own) {
      DeleteExactRows(st, u, own, env.scan, env.now);
      assert Left(st.rows, u, own, key, WriteAll(st, u, ws, env.now).rows[key], env.now);
    } else if ws != [] {
      assert ws == [ws[0]];
      WriteOne(st, u, ws[0], env.now);
    }
  }

  lemma BodyAfterUpsert(st: State, u: User, item: PushItem, env: Env, key: Key)
    requires (u, item.opId) !in st.ledger && item.kind.Some? && item.op.PushUpsert? && Decide(st.rows, u, item, env).Do?
    requires key in st.rows
    ensures var rows' := WriteAll(st, u, Decide(st.rows, u, item, env).writes, env.now).rows;
      key in rows' &&
      if Edits1(st, u, item, env, key)
      then rows'[key].content.body == MergeBody(st.rows[key].content.body, item.payload, env.now)
           && Required(key.kind, item.payload)
      else rows'[key].content.body == st.rows[key].content.body
  {
    var ws := Decide(st.rows, u, item, env).writes;
    if ws != [] {
      assert ws == [ws[0]];
      WriteOne(st, u, ws[0], env.now);
    }
  }

  // One operation changes the body of a row that stays live only by merging into it.
  lemma BodyAfterOne(st: State, u: User, item: PushItem, env: Env, key: Key)
    requires Inv(st) && ApplyOne(st, u, item, env).Done? && key in st.rows && st.rows[key].Live()
    requires var rows' := ApplyOne(st, u, item, env).st.rows; key in rows' && rows'[key].Live()
    ensures var body' := ApplyOne(st, u, item, env).st.rows[key].content.body;
      if Edits1(st, u, item, env, key)
      then body' == MergeBody(st.rows[key].content.body, item.payload, env.now) && Required(key.kind, item.payload)
      else body' == st.rows[key].content.body
  {
    if (u, item.opId) !in st.ledger && item.kind.Some? && !item.op.UnknownOp? {
      if item.op.PushDelete? {
        BodyAfterDelete(st, u, Key(item.kind.value, item.id), item, env, key);
      } else {
        BodyAfterUpsert(st, u, item, env, key);
      }
    }
  }

  lemma {:induction false} BodyAfterItems(st: State, u: User, items: seq<PushItem>, env: Env, key: Key)
    requires Inv(st) && st.clock <= env.now && ApplyItems(st, u, items, env).Committed?
    requires key in st.rows && st.rows[key].Live()
    requires var rows' := ApplyItems(st, u, items, env).st.rows; key in rows' && rows'[key].Live()
    ensures var edits := EditsInBatch(st, u, items, env, key);
      ApplyItems(st, u, items, env).st.rows[key].content.body == MergeAll(st.rows[key].content.body, edits)
      && AllRequired(key.kind, edits)
    decreases |items|
  {
    if items != [] {
      var st1 := ApplyOne(st, u, items[0], env).st;
      LiveBetween(st, u, items, env, key);
      BodyAfterOne(st, u, items[0], env, key);
      BodyAfterItems(st1, u, items[1..], env, key);
      if Edits1(st, u, items[0], env, key) {
        var rest := EditsInBatch(st1, u, items[1..], env, key);
        assert EditsInBatch(st, u, items, env, key)[1..] == rest;
      } else {
        assert EditsInBatch(st, u, items, env, key) == EditsInBatch(st1, u, items[1..], env, key);
      }
    }
  }

  // A row that is live before a batch and after it is live after its first item too.
  lemma LiveBetween(st: State, u: User, items: seq<PushItem>, env: Env, key: Key)
    requires Inv(st) && st.clock <= env.now && items != [] && ApplyItems(st, u, items, env).Committed?
    requires key in st.rows && st.rows[key].Live()
    requires var rows' := ApplyItems(st, u, items, env).st.rows; key in rows' && rows'[key].Live()
    ensures var st1 := ApplyOne(st, u, items[0], env).st;
      Inv(st1) && st1.clock <= env.now && key in st1.rows && st1.rows[key].Live()
  {
    var st1 := ApplyOne(st, u, items[0], env).st;
    ApplyOneInv(st, u, items[0], env);
    OneAdvances(st, u, items[0], env);
    ItemsAdvance(st1, u, items[1..], env);
    assert Later(st1.rows[key], ApplyItems(st1, u, items[1..], env).st.rows[key]);
  }

  lemma BodyAfterEvent(st: State, e: Event, key: Key)
    requires Inv(st) && Timely(st, e) && key in st.rows && st.rows[key].Live()
    requires key in After(st, e).rows && After(st, e).rows[key].Live()
    ensures After(st, e).rows[key].content.body == MergeAll(st.rows[key].content.body, EditsInEvent(st, e, key))
    ensures AllRequired(key.kind, EditsInEvent(st, e, key))
  {
    if e.Push? && ApplyItems(st, e.user, e.items, e.env).Committed? {
      BodyAfterItems(st, e.user, e.items, e.env, key);
    }
  }

  // Over a run that keeps the row live, its body is its first body with the accepted
  // edits merged in, in commit order, and nothing else.
  lemma {:induction false} BodyIsMerges(st: State, events: seq<Event>, key: Key)
    requires Inv(st) && AllTimely(st, events) && Kept(st, events, key)
    requires key in Run(st, events).rows && Run(st, events).rows[key].Live()
    ensures Run(st, events).rows[key].content.body == MergeAll(st.rows[key].content.body, EditsOf(st, events, key))
    ensures AllRequired(key.kind, EditsOf(st, events, key))
    decreases |events|
  {
    if events != [] {
      var e := events[0];
      var st1 := After(st, e);
      AfterInv(st, e);
      AfterAdvances(st, e, key);
      RunAdvances(st1, events[1..], key);
      BodyIsMerges(st1, events[1..], key);
      BodyAfterEvent(st, e, key);
      MergeAllAppend(st.rows[key].content.body, EditsInEvent(st, e, key), EditsOf(st1, events[1..], key));
    }
  }

  // ----- corrections: the newest texts win -----

  // The corrected texts and the time they were made.
  datatype Texts = Texts(russian: string, chinese: Option<string>, at: Time)

  function TextsOf(b: Body): Texts
    requires b.CorrectionBody?
  {
    Texts(b.fixedRussian, b.fixedChinese, b.modifiedAt)
  }

  function TextsOfEdit(e: Edit): Texts {
    Texts(Or(e.payload.correction.russian, ""), e.payload.correction.chinese, Or(e.payload.correction.modifiedAt, e.now))
  }

  function Brought(edits: seq<Edit>): seq<Texts> {
    seq(|edits|, i requires 0 <= i < |edits| => TextsOfEdit(edits[i]))
  }

  // Texts that are as new as the stored ones replace them.
  function Survivor(t: Texts, ts: seq<Texts>): Texts
    decreases |ts|
  {
    if ts == [] then t else Survivor(if ts[0].at >= t.at then ts[0] else t, ts[1..])
  }

  lemma {:induction false} MergedTexts(b: Body, edits: seq<Edit>)
    requires b.CorrectionBody?
    ensures MergeAll(b, edits).CorrectionBody?
    ensures TextsOf(MergeAll(b, edits)) == Survivor(TextsOf(b), Brought(edits))
    decreases |edits|
  {
    if edits != [] {
      var b1 := MergeBody(b, edits[0].payload, edits[0].now);
      assert Brought(edits)[1..] == Brought(edits[1..]);
      MergedTexts(b1, edits[1..]);
    }
  }

  // Texts w are at least as new as the start and everything before, and newer than everything after.
  predicate Newest(at: Time, ts: seq<Texts>, w: nat)
    requires w < |ts|
  {
    at <= ts[w].at && (forall i :: 0 <= i < w ==> ts[i].at <= ts[w].at) && (forall i :: w < i < |ts| ==> ts[i].at < ts[w].at)
  }

  predicate AllOlder(at: Time, ts: seq<Texts>) {
    forall i :: 0 <= i < |ts| ==> ts[i].at < at
  }

  lemma {:induction false} SurvivorIsNewest(t: Texts, ts: seq<Texts>)
    ensures forall w :: 0 <= w < |ts| && Newest(t.at, ts, w) ==> Survivor(t, ts) == ts[w]
    ensures AllOlder(t.at, ts) ==> Survivor(t, ts) == t
    decreases |ts|
  {
    if ts != [] {
      var t1, rest := if ts[0].at >= t.at then ts[0] else t, ts[1..];
      SurvivorIsNewest(t1, rest);
      assert forall i :: 1 <= i < |ts| ==> ts[i] == rest[i - 1];
      forall w | 0 <= w < |ts| && Newest(t.at, ts, w)
        ensures Survivor(t, ts) == ts[w]
      {
        if w == 0 {
          assert AllOlder(t1.at, rest);
        } else {
          assert Newest(t1.at, rest, w - 1);
        }
      }
    }
  }

  // Exactly the texts that survive: those of the newest edit (the last pushed among
  // equally new ones), or the first texts when they are newer than every edit.
  lemma NewestTextsWin(b: Body, edits: seq<Edit>)
    requires b.CorrectionBody?
    ensures MergeAll(b, edits).CorrectionBody?
    ensures forall w :: 0 <= w < |edits| && Newest(b.modifiedAt, Brought(edits), w) ==>
              TextsOf(MergeAll(b, edits)) == TextsOfEdit(edits[w])
    ensures AllOlder(b.modifiedAt, Brought(edits)) ==> TextsOf(MergeAll(b, edits)) == TextsOf(b)
  {
    MergedTexts(b, edits);
    SurvivorIsNewest(TextsOf(b), Brought(edits));
  }

  lemma {:induction false} FindNewest(at: Time, ts: seq<Texts>) returns (w: Option<nat>)
    ensures w.Some? ==> w.value < |ts| && Newest(at, ts, w.value)
    ensures w.None? ==> AllOlder(at, ts)
  {
    if ts == [] {
      w := None;
    } else {
      var n := |ts| - 1;
      w := FindNewest(at, ts[..n]);
      assert forall i :: 0 <= i < n ==> ts[..n][i] == ts[i];
      if ts[n].at >= (if w.Some? then ts[w.value].at else at) {
        w := Some(n);
      }
    }
  }

  // ----- exactly when the order does not matter -----

  // Not older than the start, and nothing is newer.
  predicate Top(at: Time, ts: seq<Texts>, x: Texts) {
    x in ts && at <= x.at && forall i :: 0 <= i < |ts| ==> ts[i].at <= x.at
  }

  // All the newest texts are the same.
  predicate OneTop(at: Time, ts: seq<Texts>) {
    forall x, y :: x in ts && y in ts && Top(at, ts, x) && Top(at, ts, y) ==> x == y
  }

  // What survives is one of the newest, or the start when everything is older.
  lemma SurvivorIsTop(t: Texts, ts: seq<Texts>)
    ensures Top(t.at, ts, Survivor(t, ts)) || (AllOlder(t.at, ts) && Survivor(t, ts) == t)
  {
    SurvivorIsNewest(t, ts);
    var w := FindNewest(t.at, ts);
    if w.Some? {
      assert ts[w.value] in ts;
    }
  }

  function MovedToEnd<T>(q: seq<T>, i: nat): seq<T>
    requires i < |q|
  {
    q[..i] + q[i + 1..] + [q[i]]
  }

  lemma MovedIsShuffle<T>(q: seq<T>, i: nat)
    requires i < |q|
    ensures multiset(MovedToEnd(q, i)) == multiset(q)
  {
    assert q == q[..i] + [q[i]] + q[i + 1..];
  }

  // Pushed last, any of the newest texts survive.
  lemma TopLastSurvives(t: Texts, ts: seq<Texts>, i: nat)
    requires i < |ts| && Top(t.at, ts, ts[i])
    ensures Survivor(t, MovedToEnd(ts, i)) == ts[i]
  {
    var s := MovedToEnd(ts, i);
    assert forall j :: 0 <= j < |s| - 1 ==> s[j] == if j < i then ts[j] else ts[j + 1];
    assert Newest(t.at, s, |s| - 1);
    SurvivorIsNewest(t, s);
  }

  lemma SameMembers<T>(a: seq<T>, b: seq<T>)
    requires multiset(a) == multiset(b)
    ensures forall x :: x in a <==> x in b
  {
    assert forall x :: x in a <==> x in multiset(a);
    assert forall x :: x in b <==> x in multiset(b);
  }

  // The same texts in any order leave the same survivor when all the newest are the same.
  lemma OneTopSurvivor(t: Texts, ts: seq<Texts>, s: seq<Texts>)
    requires OneTop(t.at, ts) && multiset(s) == multiset(ts)
    ensures Survivor(t, s) == Survivor(t, ts)
  {
    SameMembers(s, ts);
    SurvivorIsTop(t, ts);
    SurvivorIsTop(t, s);
    forall x
      ensures Top(t.at, s, x) <==> Top(t.at, ts, x)
    {
      if Top(t.at, s, x) {
        TopByMembers(t.at, s, ts, x);
      }
      if Top(t.at, ts, x) {
        TopByMembers(t.at, ts, s, x);
      }
    }
  }

  lemma TopByMembers(at: Time, s: seq<Texts>, ts: seq<Texts>, x: Texts)
    requires (forall y :: y in s <==> y in ts) && Top(at, s, x)
    ensures Top(at, ts, x)
  {
    forall i | 0 <= i < |ts|
      ensures ts[i].at <= x.at
    {
      assert ts[i] in ts;
      var j :| 0 <= j < |s| && s[j] == ts[i];
    }
  }

  // The texts and time that merging the edits leaves.
  function TextsAfter(b: Body, edits: seq<Edit>): Texts
    requires b.CorrectionBody?
  {
    MergedTexts(b, edits);
    TextsOf(MergeAll(b, edits))
  }

  // Pushing the same edits in any other order leaves the same texts.
  ghost predicate OrderFree(b: Body, edits: seq<Edit>)
    requires b.CorrectionBody?
  {
    forall s: seq<Edit> :: multiset(s) == multiset(edits) ==> TextsAfter(b, s) == TextsAfter(b, edits)
  }

  function Without<T>(q: seq<T>, i: nat): seq<T>
    requires i < |q|
  {
    q[..i] + q[i + 1..]
  }

  lemma TakenOut<T>(q: seq<T>, i: nat)
    requires i < |q|
    ensures multiset(q) == multiset(Without(q, i)) + multiset{q[i]}
    ensures multiset(Without(q, i)) == multiset(q) - multiset{q[i]}
  {
    assert q == q[..i] + [q[i]] + q[i + 1..];
  }

  lemma {:induction false} BroughtShuffle(s: seq<Edit>, edits: seq<Edit>)
    requires multiset(s) == multiset(edits)
    ensures multiset(Brought(s)) == multiset(Brought(edits))
    decreases |s|
  {
    if s == [] {
      assert |multiset(edits)| == 0;
      assert Brought(s) == Brought(edits) == [];
    } else {
      SameMembers(s, edits);
      assert s[0] in s;
      var i :| 0 <= i < |edits| && edits[i] == s[0];
      TakenOut(s, 0);
      TakenOut(edits, i);
      BroughtShuffle(Without(s, 0), Without(edits, i));
      BroughtTakenOut(s, 0);
      BroughtTakenOut(edits, i);
    }
  }

  lemma BroughtTakenOut(edits: seq<Edit>, i: nat)
    requires i < |edits|
    ensures multiset(Brought(edits)) == multiset(Brought(Without(edits, i))) + multiset{TextsOfEdit(edits[i])}
  {
    assert Brought(Without(edits, i)) == Without(Brought(edits), i);
    TakenOut(Brought(edits), i);
  }

  lemma OneTopOrderFree(b: Body, edits: seq<Edit>, s: seq<Edit>)
    requires b.CorrectionBody? && OneTop(b.modifiedAt, Brought(edits)) && multiset(s) == multiset(edits)
    ensures TextsAfter(b, s) == TextsAfter(b, edits)
  {
    MergedTexts(b, s);
    MergedTexts(b, edits);
    BroughtShuffle(s, edits);
    OneTopSurvivor(TextsOf(b), Brought(edits), Brought(s));
  }

  lemma TopWhenLast(b: Body, edits: seq<Edit>, i: nat)
    requires b.CorrectionBody? && i < |edits| && Top(b.modifiedAt, Brought(edits), TextsOfEdit(edits[i]))
    ensures TextsAfter(b, MovedToEnd(edits, i)) == TextsOfEdit(edits[i])
  {
    MergedTexts(b, MovedToEnd(edits, i));
    assert Brought(MovedToEnd(edits, i)) == MovedToEnd(Brought(edits), i);
    TopLastSurvives(TextsOf(b), Brought(edits), i);
  }

  // Order independence, exactly: for any edits, every order of them leaves the same texts
  // and time if and only if all the newest of them, not older than the start, bring the
  // same texts. Ties below the newest and repeats of the stored time do not matter.
  lemma CorrectionOrderFree(b: Body, edits: seq<Edit>)
    requires b.CorrectionBody?
    ensures OrderFree(b, edits) <==> OneTop(b.modifiedAt, Brought(edits))
  {
    var ts := Brought(edits);
    if OneTop(b.modifiedAt, ts) {
      forall s: seq<Edit> | multiset(s) == multiset(edits)
        ensures TextsAfter(b, s) == TextsAfter(b, edits)
      {
        OneTopOrderFree(b, edits, s);
      }
    }
    if OrderFree(b, edits) {
      forall x | x in ts && Top(b.modifiedAt, ts, x)
        ensures x == TextsAfter(b, edits)
      {
        var i :| 0 <= i < |ts| && ts[i] == x;
        MovedIsShuffle(edits, i);
        TopWhenLast(b, edits, i);
      }
    }
  }

  lemma OrdersOfTwo(x: Edit, y: Edit, s: seq<Edit>)
    requires multiset(s) == multiset([x, y])
    ensures s == [x, y] || s == [y, x]
  {
    assert |s| == |multiset(s)| == 2 && s == [s[0], s[1]];
    SameMembers(s, [x, y]);
    assert multiset([x, y]) == multiset{x, y} && multiset(s) == multiset{s[0], s[1]};
    if s[0] == x {
      assert multiset{s[1]} == multiset(s) - multiset{x} == multiset{y};
      assert s[1] in multiset{y};
    } else {
      assert s[0] == y;
      assert multiset{s[1]} == multiset(s) - multiset{y} == multiset{x};
      assert s[1] in multiset{x};
    }
  }

  lemma OrderFreeOfTwo(b: Body, x: Edit, y: Edit)
    requires b.CorrectionBody?
    ensures OrderFree(b, [x, y]) <==> TextsAfter(b, [x, y]) == TextsAfter(b, [y, x])
  {
    assert multiset([y, x]) == multiset([x, y]);
    forall s: seq<Edit> | multiset(s) == multiset([x, y])
      ensures TextsAfter(b, s) in {TextsAfter(b, [x, y]), TextsAfter(b, [y, x])}
    {
      OrdersOfTwo(x, y, s);
    }
  }

  // With equal timestamps the order does show: the later push wins.
  lemma TiedCorrectionsDiffer(b: Body, x: Edit, y: Edit)
    requires b.CorrectionBody? && b.modifiedAt <= TextsOfEdit(x).at == TextsOfEdit(y).at
    ensures TextsAfter(b, [x, y]) == TextsAfter(b, [y, x]) <==> TextsOfEdit(x) == TextsOfEdit(y)
  {
    var ts := Brought([x, y]);
    OrderFreeOfTwo(b, x, y);
    CorrectionOrderFree(b, [x, y]);
    assert ts == [TextsOfEdit(x), TextsOfEdit(y)];
    assert ts[0] in ts && ts[1] in ts && Top(b.modifiedAt, ts, ts[0]) && Top(b.modifiedAt, ts, ts[1]);
  }

  // ----- activities: time only grows, terminal states stick -----

  function Seconds(e: Edit): int { Or(e.payload.activity.seconds, 0) }

  function End(e: Edit): Option<Time> { e.payload.activity.endedAt }

  function Status(e: Edit): string { OrText(e.payload.activity.status, "in_progress") }

  predicate Terminal(status: string) { status == "completed" || status == "abandoned" }

  // The value is the largest of the first one and those of the edits.
  predicate IsMaxSeconds(first: int, edits: seq<Edit>, m: int) {
    && first <= m && (forall i :: 0 <= i < |edits| ==> Seconds(edits[i]) <= m)
    && (m == first || exists i :: 0 <= i < |edits| && Seconds(edits[i]) == m)
  }

  predicate AtMost(a: Option<Time>, b: Option<Time>) {
    a.None? || (b.Some? && a.value <= b.value)
  }

  // Likewise for end times; no end time is less than any.
  predicate IsMaxEnd(first: Option<Time>, edits: seq<Edit>, m: Option<Time>) {
    && AtMost(first, m) && (forall i :: 0 <= i < |edits| ==> AtMost(End(edits[i]), m))
    && (m == first || exists i :: 0 <= i < |edits| && End(edits[i]) == m)
  }

  predicate SomeTerminal(edits: seq<Edit>) {
    exists i :: 0 <= i < |edits| && Terminal(Status(edits[i]))
  }

  lemma {:induction false} ActivityMerges(b: Body, edits: seq<Edit>)
    requires b.ActivityBody? && AllRequired(StudyActivity, edits)
    ensures var m := MergeAll(b, edits);
      && m.ActivityBody? && IsMaxSeconds(b.seconds, edits, m.seconds) && IsMaxEnd(b.activityEnd, edits, m.activityEnd)
      && (Terminal(m.activityStatus) <==> Terminal(b.activityStatus) || SomeTerminal(edits))
    decreases |edits|
  {
    if edits != [] {
      var b1, rest := MergeBody(b, edits[0].payload, edits[0].now), edits[1..];
      assert Required(StudyActivity, edits[0].payload);
      ActivityMerges(b1, rest);
      ActivityStep(b, edits, b1, MergeAll(b, edits));
    }
  }

  lemma ActivityStep(b: Body, edits: seq<Edit>, b1: Body, m: Body)
    requires edits != [] && b.ActivityBody? && b1 == MergeBody(b, edits[0].payload, edits[0].now) && m.ActivityBody?
    requires Required(StudyActivity, edits[0].payload)
    requires b1.ActivityBody? && IsMaxSeconds(b1.seconds, edits[1..], m.seconds)
    requires IsMaxEnd(b1.activityEnd, edits[1..], m.activityEnd)
    requires Terminal(m.activityStatus) <==> Terminal(b1.activityStatus) || SomeTerminal(edits[1..])
    ensures IsMaxSeconds(b.seconds, edits, m.seconds) && IsMaxEnd(b.activityEnd, edits, m.activityEnd)
    ensures Terminal(m.activityStatus) <==> Terminal(b.activityStatus) || SomeTerminal(edits)
  {
    var rest := edits[1..];
    assert forall i :: 0 <= i < |rest| ==> rest[i] == edits[i + 1];
    assert forall i :: 1 <= i < |edits| ==> edits[i] == rest[i - 1];
    assert Seconds(edits[0]) <= b1.seconds && AtMost(End(edits[0]), b1.activityEnd);
  }

  // The activity m is what the first one and the edits make together.
  predicate Together(b: Body, edits: seq<Edit>, m: Body) {
    && b.ActivityBody? && m.ActivityBody?
    && IsMaxSeconds(b.seconds, edits, m.seconds) && IsMaxEnd(b.activityEnd, edits, m.activityEnd)
    && (Terminal(m.activityStatus) <==> Terminal(b.activityStatus) || SomeTerminal(edits))
  }

  lemma MergedTogether(b: Body, edits: seq<Edit>, m: Body)
    requires KindOf(b) == StudyActivity && AllRequired(StudyActivity, edits) && m == MergeAll(b, edits)
    ensures Together(b, edits, m)
  {
    ActivityMerges(b, edits);
  }

  // The run keeps the row, and leaves it live.
  predicate StaysLive(st: State, events: seq<Event>, key: Key) {
    && Inv(st) && AllTimely(st, events) && Kept(st, events, key)
    && key in Run(st, events).rows && Run(st, events).rows[key].Live()
  }

  function FirstBody(st: State, key: Key): Body
    requires key in st.rows
  {
    st.rows[key].content.body
  }

  function LastBody(st: State, events: seq<Event>, key: Key): Body
    requires StaysLive(st, events, key)
  {
    Run(st, events).rows[key].content.body
  }

  lemma LastBodyIsMerges(st: State, events: seq<Event>, key: Key)
    requires StaysLive(st, events, key)
    ensures key in st.rows && KindOf(FirstBody(st, key)) == key.kind
    ensures LastBody(st, events, key) == MergeAll(FirstBody(st, key), EditsOf(st, events, key))
    ensures AllRequired(key.kind, EditsOf(st, events, key))
  {
    assert key in st.rows && RowOk(st, key);
    BodyIsMerges(st, events, key);
  }

  // A study activity over a whole run: the longest duration and the latest end of all
  // accepted pushes, and never in progress again once one was terminal.
  lemma ActivityOverRun(st: State, events: seq<Event>, key: Key)
    requires StaysLive(st, events, key) && key.kind == StudyActivity
    ensures key in st.rows
    ensures Together(FirstBody(st, key), EditsOf(st, events, key), LastBody(st, events, key))
  {
    LastBodyIsMerges(st, events, key);
    MergedTogether(FirstBody(st, key), EditsOf(st, events, key), LastBody(st, events, key));
  }

  // ----- corrections over whole runs -----

  function FirstTexts(st: State, key: Key): Texts
    requires Inv(st) && key in st.rows && key.kind == Correction
  {
    assert RowOk(st, key);
    CorrectionKind(FirstBody(st, key));
    TextsOf(FirstBody(st, key))
  }

  // What the accepted pushes of a run brought, in commit order.
  function BroughtOver(st: State, events: seq<Event>, key: Key): seq<Texts> {
    Brought(EditsOf(st, events, key))
  }

  lemma TextsOverRun(st: State, events: seq<Event>, key: Key)
    requires StaysLive(st, events, key) && key.kind == Correction
    ensures key in st.rows && FirstBody(st, key).CorrectionBody? && LastBody(st, events, key).CorrectionBody?
    ensures TextsOf(LastBody(st, events, key)) == Survivor(FirstTexts(st, key), BroughtOver(st, events, key))
  {
    LastBodyIsMerges(st, events, key);
    CorrectionKind(FirstBody(st, key));
    MergedTexts(FirstBody(st, key), EditsOf(st, events, key));
  }

  lemma CorrectionKind(b: Body)
    requires KindOf(b) == Correction
    ensures b.CorrectionBody?
  {
  }

  // Two runs whose pushes brought the same texts and times, in any order and whenever
  // they arrived, end with the same texts and time if all the newest were the same.
  lemma CorrectionOverRuns(st: State, events: seq<Event>, others: seq<Event>, key: Key)
    requires StaysLive(st, events, key) && StaysLive(st, others, key) && key.kind == Correction
    requires multiset(BroughtOver(st, others, key)) == multiset(BroughtOver(st, events, key))
    requires key in st.rows && OneTop(FirstTexts(st, key).at, BroughtOver(st, events, key))
    ensures var m, n := LastBody(st, events, key), LastBody(st, others, key);
      m.CorrectionBody? && n.CorrectionBody? && TextsOf(m) == TextsOf(n)
  {
    TextsOverRun(st, events, key);
    TextsOverRun(st, others, key);
    OneTopSurvivor(FirstTexts(st, key), BroughtOver(st, events, key), BroughtOver(st, others, key));
  }

  // ----- any texts can arrive in any order -----

  lemma {:induction false} Above(ids: set<OpId>) returns (n: OpId)
    ensures forall id :: id in ids ==> id < n
  {
    if ids == {} {
      n := 0;
    } else {
      var id :| id in ids;
      var m := Above(ids - {id});
      n := if m > id then m else id + 1;
      assert ids == (ids - {id}) + {id};
    }
  }

  lemma UnusedOp(ledger: map<(User, OpId), Receipt>, u: User) returns (n: OpId)
    ensures (u, n) !in ledger
  {
    var ids := set o | o in ledger :: o.1;
    n := Above(ids);
    assert (u, n) in ledger ==> (u, n).1 in ids;
  }

  // A push that brings these texts to the correction as it is stored.
  function PushOf(st: State, key: Key, opId: OpId, t: Texts): PushItem
    requires key in st.rows
  {
    PushItem(opId, Some(Correction), key.id, PushUpsert, st.rows[key].version, 0,
             SyncLaws.NOTHING.(correction := CorrectionFields(Some(t.russian), t.chinese, Some(t.at), None)))
  }

  predicate Correctable(st: State, u: User, key: Key) {
    key.kind == Correction && LiveRow(st.rows, u, key) && LiveRow(st.rows, u, Key(Entry, key.id))
  }

  lemma PushDecides(st: State, u: User, key: Key, opId: OpId, t: Texts, env: Env)
    requires Correctable(st, u, key)
    ensures var item := PushOf(st, key, opId, t);
      || TextClash(st.rows[key].content, item.payload)
      || Decide(st.rows, u, item, env) ==
           Do(Accepted(opId, st.rows[key].version + 1, env.now),
              [Put(key, MergeContent(st.rows[key].content, item.payload, env.now), false)])
  {
  }

  lemma PushWrites(st: State, u: User, key: Key, opId: OpId, t: Texts, env: Env)
    requires Inv(st) && Correctable(st, u, key) && (u, opId) !in st.ledger
    ensures var item := PushOf(st, key, opId, t);
      var one := ApplyOne(st, u, item, env);
      one.Done? && Correctable(one.st, u, key) && Edits1(st, u, item, env, key)
  {
    assert RowOk(st, key);
    PushDecides(st, u, key, opId, t, env);
    WriteOne(st, u, Put(key, MergeContent(st.rows[key].content, PushOf(st, key, opId, t).payload, env.now), false), env.now);
  }

  lemma OnePush(st: State, u: User, key: Key, opId: OpId, t: Texts, env: Env)
    requires Inv(st) && Correctable(st, u, key) && (u, opId) !in st.ledger && env.now == st.clock
    ensures var item, st1 := PushOf(st, key, opId, t), After(st, Push(u, [PushOf(st, key, opId, t)], env));
      && Correctable(st1, u, key)
      && EditsInEvent(st, Push(u, [item], env), key) == [Edit(item.payload, env.now)]
  {
    var item := PushOf(st, key, opId, t);
    PushWrites(st, u, key, opId, t, env);
    var st1 := ApplyOne(st, u, item, env).st;
    assert [item][1..] == [] && ApplyItems(st1, u, [], env) == Committed(st1, []);
    assert ApplyItems(st, u, [item], env).Committed? && ApplyItems(st, u, [item], env).st == st1;
    assert EditsInBatch(st, u, [item], env, key) == [Edit(item.payload, env.now)] + EditsInBatch(st1, u, [], env, key);
  }

  lemma StaysLiveCons(st: State, e: Event, events: seq<Event>, key: Key)
    requires Inv(st) && Timely(st, e) && key in st.rows && StaysLive(After(st, e), events, key)
    ensures StaysLive(st, [e] + events, key)
    ensures EditsOf(st, [e] + events, key) == EditsInEvent(st, e, key) + EditsOf(After(st, e), events, key)
  {
    assert ([e] + events)[1..] == events;
  }

  lemma BroughtCons(e: Edit, rest: seq<Edit>, ts: seq<Texts>)
    requires ts != [] && TextsOfEdit(e) == ts[0] && Brought(rest) == ts[1..]
    ensures Brought([e] + rest) == ts
  {
    assert [ts[0]] + ts[1..] == ts;
  }

  predicate Brings(st: State, events: seq<Event>, key: Key, ts: seq<Texts>) {
    StaysLive(st, events, key) && BroughtOver(st, events, key) == ts
  }

  lemma ArrivesFirst(st: State, e: Event, edit: Edit, rest: seq<Event>, key: Key, ts: seq<Texts>)
    requires Inv(st) && key in st.rows && Timely(st, e) && EditsInEvent(st, e, key) == [edit]
    requires ts != [] && TextsOfEdit(edit) == ts[0] && Brings(After(st, e), rest, key, ts[1..])
    ensures Brings(st, [e] + rest, key, ts)
  {
    StaysLiveCons(st, e, rest, key);
    BroughtCons(edit, EditsOf(After(st, e), rest, key), ts);
  }

  lemma NothingArrives(st: State, u: User, key: Key)
    requires Inv(st) && Correctable(st, u, key)
    ensures Brings(st, [], key, [])
  {
  }

  // One more push that brings these texts, from any state that can take it.
  lemma NextArrival(st: State, u: User, key: Key, t: Texts, scan: Scan) returns (e: Event, edit: Edit)
    requires Inv(st) && Correctable(st, u, key)
    ensures Timely(st, e) && Inv(After(st, e)) && Correctable(After(st, e), u, key)
    ensures EditsInEvent(st, e, key) == [edit] && TextsOfEdit(edit) == t
  {
    var env := Env(st.clock, scan);
    var opId := UnusedOp(st.ledger, u);
    e, edit := Push(u, [PushOf(st, key, opId, t)], env), Edit(PushOf(st, key, opId, t).payload, env.now);
    OnePush(st, u, key, opId, t, env);
    AfterInv(st, e);
  }

  // From any state in which the correction and its entry are live, some run brings exactly
  // these texts in this order.
  lemma {:induction false} Arrives(st: State, u: User, key: Key, ts: seq<Texts>, scan: Scan) returns (events: seq<Event>)
    requires Inv(st) && Correctable(st, u, key)
    ensures Brings(st, events, key, ts)
    decreases |ts|
  {
    if ts == [] {
      events := [];
      NothingArrives(st, u, key);
    } else {
      var e, edit := NextArrival(st, u, key, ts[0], scan);
      var rest := Arrives(After(st, e), u, key, ts[1..], scan);
      events := [e] + rest;
      ArrivesFirst(st, e, edit, rest, key, ts);
    }
  }

  ghost function AnyScan(): Scan {
    s => AnyListing(s)
  }

  // ----- from any run another that brings the same texts in another order -----

  // An accepted push of a correction finds it live, and its entry too.
  lemma EditFindsLive(st: State, u: User, item: PushItem, env: Env, key: Key)
    requires Edits1(st, u, item, env, key) && key.kind == Correction
    ensures Correctable(st, u, key)
  {
  }

  // These items commit, bring the correction nothing, and leave it ready for a push.
  predicate BeforeEdit(st: State, u: User, items: seq<PushItem>, env: Env, key: Key) {
    && ApplyItems(st, u, items, env).Committed? && EditsInBatch(st, u, items, env, key) == []
    && Correctable(ApplyItems(st, u, items, env).st, u, key)
  }

  lemma BeforeEditCons(st: State, u: User, item: PushItem, items: seq<PushItem>, env: Env, key: Key)
    requires ApplyOne(st, u, item, env).Done? && !Edits1(st, u, item, env, key)
    requires BeforeEdit(ApplyOne(st, u, item, env).st, u, items, env, key)
    ensures BeforeEdit(st, u, [item] + items, env, key)
  {
    assert ([item] + items)[1..] == items;
  }

  // The batch up to its first accepted push of the correction.
  lemma {:induction false} FirstEdit(st: State, u: User, items: seq<PushItem>, env: Env, key: Key) returns (i: nat)
    requires key.kind == Correction && ApplyItems(st, u, items, env).Committed? && EditsInBatch(st, u, items, env, key) != []
    ensures i < |items| && BeforeEdit(st, u, items[..i], env, key)
    decreases |items|
  {
    if Edits1(st, u, items[0], env, key) {
      i := 0;
      EditFindsLive(st, u, items[0], env, key);
    } else {
      var j := FirstEdit(ApplyOne(st, u, items[0], env).st, u, items[1..], env, key);
      i := j + 1;
      BeforeEditCons(st, u, items[0], items[1..][..j], env, key);
      assert items[..i] == [items[0]] + items[1..][..j];
    }
  }

  lemma ArrivesAfter(st: State, e: Event, rest: seq<Event>, key: Key, ts: seq<Texts>)
    requires Inv(st) && key in st.rows && Timely(st, e) && EditsInEvent(st, e, key) == []
    requires Brings(After(st, e), rest, key, ts)
    ensures Brings(st, [e] + rest, key, ts)
  {
    StaysLiveCons(st, e, rest, key);
    assert EditsOf(st, [e] + rest, key) == EditsOf(After(st, e), rest, key);
  }

  lemma StaysLiveTail(st: State, events: seq<Event>, key: Key)
    requires StaysLive(st, events, key) && events != []
    ensures Timely(st, events[0]) && key in st.rows && StaysLive(After(st, events[0]), events[1..], key)
    ensures EditsInEvent(st, events[0], key) == [] ==>
              BroughtOver(st, events, key) == BroughtOver(After(st, events[0]), events[1..], key)
  {
    AfterInv(st, events[0]);
    if EditsInEvent(st, events[0], key) == [] {
      assert EditsOf(st, events, key) == EditsOf(After(st, events[0]), events[1..], key);
    }
  }

  // The run up to the first accepted push of the correction, then these texts in this order.
  lemma FirstPushThen(st: State, e: Event, key: Key, ts: seq<Texts>) returns (others: seq<Event>)
    requires Inv(st) && key in st.rows && Timely(st, e) && key.kind == Correction && EditsInEvent(st, e, key) != []
    ensures Brings(st, others, key, ts)
  {
    var i := FirstEdit(st, e.user, e.items, e.env, key);
    var first := Push(e.user, e.items[..i], e.env);
    AfterInv(st, first);
    var rest := Arrives(After(st, first), e.user, key, ts, AnyScan());
    others := [first] + rest;
    ArrivesAfter(st, first, rest, key, ts);
  }

  // Whatever a run brings a correction, another run brings in any other order.
  lemma {:induction false} Reorders(st: State, events: seq<Event>, key: Key, ts: seq<Texts>) returns (others: seq<Event>)
    requires StaysLive(st, events, key) && key.kind == Correction
    requires multiset(ts) == multiset(BroughtOver(st, events, key))
    ensures Brings(st, others, key, ts)
    decreases |events|
  {
    if BroughtOver(st, events, key) == [] {
      others := events;
      assert |multiset(ts)| == |ts|;
    } else {
      var e := events[0];
      StaysLiveTail(st, events, key);
      if EditsInEvent(st, e, key) == [] {
        var rest := Reorders(After(st, e), events[1..], key, ts);
        others := [e] + rest;
        ArrivesAfter(st, e, rest, key, ts);
      } else {
        others := FirstPushThen(st, e, key, ts);
      }
    }
  }

  function LastTexts(st: State, events: seq<Event>, key: Key): Texts
    requires StaysLive(st, events, key) && key.kind == Correction
  {
    TextsOverRun(st, events, key);
    TextsOf(LastBody(st, events, key))
  }

  // The other run brings the same texts and times, in some order.
  predicate Rearranges(st: State, others: seq<Event>, events: seq<Event>, key: Key) {
    StaysLive(st, others, key) && multiset(BroughtOver(st, others, key)) == multiset(BroughtOver(st, events, key))
  }

  ghost predicate RunsAgree(st: State, events: seq<Event>, key: Key)
    requires StaysLive(st, events, key) && key.kind == Correction
  {
    forall others: seq<Event> :: Rearranges(st, others, events, key) ==> LastTexts(st, others, key) == LastTexts(st, events, key)
  }

  // Some run brings the same texts with any of the newest last, and ends with those.
  lemma TopArrivesLast(st: State, events: seq<Event>, key: Key, i: nat) returns (others: seq<Event>)
    requires StaysLive(st, events, key) && key.kind == Correction && key in st.rows
    requires var ts := BroughtOver(st, events, key); i < |ts| && Top(FirstTexts(st, key).at, ts, ts[i])
    ensures Rearranges(st, others, events, key) && LastTexts(st, others, key) == BroughtOver(st, events, key)[i]
  {
    var ts := BroughtOver(st, events, key);
    MovedIsShuffle(ts, i);
    others := Reorders(st, events, key, MovedToEnd(ts, i));
    TextsOverRun(st, others, key);
    TopLastSurvives(FirstTexts(st, key), ts, i);
  }

  lemma OneTopRunsAgree(st: State, events: seq<Event>, key: Key)
    requires StaysLive(st, events, key) && key.kind == Correction
    requires key in st.rows && OneTop(FirstTexts(st, key).at, BroughtOver(st, events, key))
    ensures RunsAgree(st, events, key)
  {
    forall others: seq<Event> | Rearranges(st, others, events, key)
      ensures LastTexts(st, others, key) == LastTexts(st, events, key)
    {
      CorrectionOverRuns(st, events, others, key);
    }
  }

  lemma RunsAgreeOneTop(st: State, events: seq<Event>, key: Key)
    requires StaysLive(st, events, key) && key.kind == Correction && key in st.rows && RunsAgree(st, events, key)
    ensures OneTop(FirstTexts(st, key).at, BroughtOver(st, events, key))
  {
    var at, ts := FirstTexts(st, key).at, BroughtOver(st, events, key);
    forall x | x in ts && Top(at, ts, x)
      ensures x == LastTexts(st, events, key)
    {
      var i :| 0 <= i < |ts| && ts[i] == x;
      var others := TopArrivesLast(st, events, key, i);
    }
  }

  // Over whole runs, exactly: all runs whose pushes bring the same texts, in any order,
  // end with the same texts and time if and only if all the newest of them are the same.
  lemma CorrectionRunsIff(st: State, events: seq<Event>, key: Key)
    requires StaysLive(st, events, key) && key.kind == Correction
    ensures key in st.rows
    ensures RunsAgree(st, events, key) <==> OneTop(FirstTexts(st, key).at, BroughtOver(st, events, key))
  {
    if OneTop(FirstTexts(st, key).at, BroughtOver(st, events, key)) {
      OneTopRunsAgree(st, events, key);
    }
    if RunsAgree(st, events, key) {
      RunsAgreeOneTop(st, events, key);
    }
  }
}
