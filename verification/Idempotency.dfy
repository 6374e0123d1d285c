/** The claim / complete / abandon protocol for hosted mutations
    (`HostedIdempotencyStore`) and its use by the project-creation route, with any
    number of concurrent handlers, crashes and storage failures. */
module Idempotency {
  import opened Wrappers

  type Body = string

  /** Primary key of `hosted_idempotency`. */
  datatype Key = Key(tenantId: string, operation: string, key: string)

  /** A stored claim. `claim` numbers the insert that made it; `body` stands for the
      request hash. A pending row has no response. */
  datatype Row = Row(claim: nat, body: Body, response: Option<Body>, expiresAt: int)

  datatype Answer = New | Replay(response: Body) | Conflict | InProgress | MissingKey

  // ---------------------------------------------------------------------
  // The store's three operations, as functions on the table
  // ---------------------------------------------------------------------

  /** `DELETE ... WHERE expires_at <= now`, across all keys. */
  function PurgeExpired(rows: map<Key, Row>, now: int): map<Key, Row> {
    map k | k in rows && rows[k].expiresAt > now :: rows[k]
  }

  /** `claim`. Only a granted claim commits; otherwise even the purge is rolled back. */
  function ClaimRow(rows: map<Key, Row>, k: Key, body: Body, now: int, retention: nat, claim: nat): (map<Key, Row>, Answer) {
    var live := PurgeExpired(rows, now);
    if k.key == "" then (rows, MissingKey)
    else if k !in live then (live[k := Row(claim, body, None, now + retention)], New)
    else if live[k].body != body then (rows, Conflict)
    else if live[k].response.None? then (rows, InProgress)
    else (rows, Replay(live[k].response.value))
  }

  /** The row `complete` and `abandon` act on: the key's pending row with this body. */
  predicate PendingMatch(rows: map<Key, Row>, k: Key, body: Body) {
    k in rows && rows[k].body == body && rows[k].response.None?
  }

  function CompleteRow(rows: map<Key, Row>, k: Key, body: Body, response: Body): map<Key, Row> {
    if PendingMatch(rows, k, body) then rows[k := rows[k].(response := Some(response))] else rows
  }

  function AbandonRow(rows: map<Key, Row>, k: Key, body: Body): map<Key, Row> {
    if PendingMatch(rows, k, body) then rows - {k} else rows
  }

  // ---------------------------------------------------------------------
  // The store
  // ---------------------------------------------------------------------

  class IdempotencyStore {
    const retention: nat
    var rows: map<Key, Row>
    var nextClaim: nat

    constructor (retentionSeconds: nat)
      requires retentionSeconds >= 1
      ensures retention == retentionSeconds && rows == map[]
    {
      retention := retentionSeconds;
      rows, nextClaim := map[], 0;
    }

    method Claim(k: Key, body: Body, now: int) returns (answer: Answer)
      modifies this
      ensures (rows, answer) == ClaimRow(old(rows), k, body, now, retention, old(nextClaim))
      ensures answer == MissingKey <==> k.key == ""
      ensures answer == New <==> k.key != "" && (k in old(rows) ==> old(rows)[k].expiresAt <= now)
      ensures answer == Conflict <==> k.key != "" && k in old(rows) && old(rows)[k].expiresAt > now && old(rows)[k].body != body
      ensures answer == InProgress || answer.Replay? <==>
        k.key != "" && k in old(rows) && old(rows)[k].expiresAt > now && old(rows)[k].body == body
      ensures answer == InProgress ==> old(rows)[k].response == None
      ensures answer.Replay? ==> old(rows)[k].response == Some(answer.response)
      ensures answer != New ==> rows == old(rows)
      ensures answer == New ==>
        && k in rows && rows[k] == Row(old(nextClaim), body, None, now + retention)
        && (forall j :: j in rows && j != k ==> j in old(rows) && rows[j] == old(rows)[j] && old(rows)[j].expiresAt > now)
        && (forall j :: j in old(rows) && old(rows)[j].expiresAt > now ==> j in rows)
      ensures nextClaim == old(nextClaim) + (if answer == New then 1 else 0)
    {
      if k.key == "" {
        return MissingKey;
      }
      var live := PurgeExpired(rows, now);
      if k !in live {
        rows := live[k := Row(nextClaim, body, None, now + retention)];
        nextClaim := nextClaim + 1;
        return New;
      }
      var row := live[k];
      if row.body != body {
        return Conflict;
      }
      if row.response.None? {
        return InProgress;
      }
      answer := Replay(row.response.value);
    }

    /** Reports whether exactly one pending row was completed; it then holds the response. */
    method Complete(k: Key, body: Body, response: Body) returns (done: bool)
      modifies this`rows
      ensures rows == CompleteRow(old(rows), k, body, response)
      ensures done <==> k in old(rows) && old(rows)[k].body == body && old(rows)[k].response == None
      ensures rows.Keys == old(rows).Keys
      ensures done ==>
        && rows[k].response == Some(response)
        && rows[k].claim == old(rows)[k].claim && rows[k].body == body && rows[k].expiresAt == old(rows)[k].expiresAt
      ensures forall j :: j in rows && (!done || j != k) ==> rows[j] == old(rows)[j]
    {
      done := k in rows && rows[k].body == body && rows[k].response.None?;
      if done {
        rows := rows[k := rows[k].(response := Some(response))];
      }
    }

    method Abandon(k: Key, body: Body) returns (deleted: bool)
      modifies this`rows
      ensures rows == AbandonRow(old(rows), k, body)
      ensures deleted <==> k in old(rows) && old(rows)[k].body == body && old(rows)[k].response == None
      ensures rows.Keys == if deleted then old(rows).Keys - {k} else old(rows).Keys
      ensures forall j :: j in rows ==> rows[j] == old(rows)[j]
    {
      deleted := k in rows && rows[k].body == body && rows[k].response.None?;
      if deleted {
        rows := rows - {k};
      }
    }
  }

  // ---------------------------------------------------------------------
  // Concurrent handlers of the project-creation route
  // ---------------------------------------------------------------------

  /** What a handler that was granted a claim does next. */
  datatype Stage = DoCheck | DoCreate | DoComplete | DoAbandon

  datatype Handler = Handler(k: Key, body: Body, claim: nat, expiresAt: int, stage: Stage)

  /** One successful `create_project` call, with the claim it was made under. */
  datatype Success = Success(k: Key, body: Body, claim: nat, expiresAt: int, at: int)

  datatype Reply = Reply(k: Key, body: Body, response: Body)

  datatype State = State(
    now: int, nextClaim: nat, rows: map<Key, Row>, handlers: map<nat, Handler>,
    successes: seq<Success>, replays: set<Reply>)

  datatype Action =
    | Tick(seconds: nat)
    | Claim(h: nat, k: Key, body: Body)
    | Check(h: nat, ok: bool)
    | Create(h: nat, ok: bool)
    | Complete(h: nat, storageFails: bool)
    | Abandon(h: nat)
    | Crash(h: nat)

  /** The response is a function of the body. */
  function ResponseTo(body: Body): Body {
    "created:" + body
  }

  function Step(retention: nat, s: State, a: Action): State {
    match a
    case Tick(seconds) => s.(now := s.now + seconds)
    case Claim(h, k, body) =>
      if h in s.handlers then s
      else
        var (rows, answer) := ClaimRow(s.rows, k, body, s.now, retention, s.nextClaim);
        if answer == New then
          s.(rows := rows, nextClaim := s.nextClaim + 1,
             handlers := s.handlers[h := Handler(k, body, s.nextClaim, s.now + retention, DoCheck)])
        else if answer.Replay? then s.(replays := s.replays + {Reply(k, body, answer.response)})
        else s
    case Check(h, ok) =>
      if h !in s.handlers || s.handlers[h].stage != DoCheck then s
      else s.(handlers := s.handlers[h := s.handlers[h].(stage := if ok then DoCreate else DoAbandon)])
    case Create(h, ok) =>
      if h !in s.handlers || s.handlers[h].stage != DoCreate then s
      else
        var me := s.handlers[h];
        s.(handlers := s.handlers[h := me.(stage := if ok then DoComplete else DoAbandon)],
           successes := if ok then s.successes + [Success(me.k, me.body, me.claim, me.expiresAt, s.now)] else s.successes)
    case Complete(h, storageFails) =>
      if h !in s.handlers || s.handlers[h].stage != DoComplete then s
      else
        var me := s.handlers[h];
        if storageFails || !PendingMatch(s.rows, me.k, me.body) then
          s.(handlers := s.handlers[h := me.(stage := DoAbandon)])
        else
          s.(rows := CompleteRow(s.rows, me.k, me.body, ResponseTo(me.body)), handlers := s.handlers - {h})
    case Abandon(h) =>
      if h !in s.handlers || s.handlers[h].stage != DoAbandon then s
      else s.(rows := AbandonRow(s.rows, s.handlers[h].k, s.handlers[h].body), handlers := s.handlers - {h})
    case Crash(h) => s.(handlers := s.handlers - {h})
  }

  function Start(now: int): State {
    State(now, 0, map[], map[], [], {})
  }

  function Run(retention: nat, now: int, actions: seq<Action>): State {
    if actions == [] then Start(now)
    else Step(retention, Run(retention, now, actions[..|actions| - 1]), actions[|actions| - 1])
  }

  // ---------------------------------------------------------------------
  // What holds in every run
  // ---------------------------------------------------------------------

  /** Claim numbers are unique, and a claim whose call succeeded is past that call. */
  ghost predicate ClaimsOk(s: State) {
    ClaimsBounded(s) && ClaimsDistinct(s) && SuccessesPast(s)
  }

  ghost predicate ClaimsBounded(s: State) {
    && (forall k :: k in s.rows ==> s.rows[k].claim < s.nextClaim)
    && (forall h :: h in s.handlers ==> s.handlers[h].claim < s.nextClaim)
    && (forall x :: x in s.successes ==> x.claim < s.nextClaim)
  }

  ghost predicate ClaimsDistinct(s: State) {
    forall g, h :: g in s.handlers && h in s.handlers && s.handlers[g].claim == s.handlers[h].claim ==> g == h
  }

  ghost predicate SuccessesPast(s: State) {
    forall x, h :: x in s.successes && h in s.handlers && s.handlers[h].stage in {DoCheck, DoCreate} ==>
      x.claim != s.handlers[h].claim
  }

  /** A handler and the row of its claim agree. */
  ghost predicate RowsAgree(s: State) {
    forall h :: h in s.handlers && Holds(s, s.handlers[h]) ==>
      s.rows[s.handlers[h].k].body == s.handlers[h].body && s.rows[s.handlers[h].k].expiresAt == s.handlers[h].expiresAt
  }

  /** The key's current row is this handler's own claim. */
  predicate Holds(s: State, me: Handler) {
    me.k in s.rows && s.rows[me.k].claim == me.claim
  }

  ghost predicate Succeeded(s: State, k: Key, body: Body) {
    exists x :: x in s.successes && x.k == k && x.body == body
  }

  /** Whatever is stored or replayed was stored by a success with the same body. */
  ghost predicate ResponsesOk(s: State) {
    && (forall h :: h in s.handlers && s.handlers[h].stage == DoComplete ==> Succeeded(s, s.handlers[h].k, s.handlers[h].body))
    && (forall k :: k in s.rows && s.rows[k].response.Some? ==>
          s.rows[k].response.value == ResponseTo(s.rows[k].body) && Succeeded(s, k, s.rows[k].body))
    && (forall r :: r in s.replays ==> r.response == ResponseTo(r.body) && Succeeded(s, r.k, r.body))
  }

  ghost predicate Inv(s: State) {
    ClaimsOk(s) && RowsAgree(s) && ResponsesOk(s)
  }

  lemma {:induction false} DistinctStep(retention: nat, s: State, a: Action)
    requires ClaimsBounded(s) && ClaimsDistinct(s)
    ensures ClaimsDistinct(Step(retention, s, a))
  {
  }

  lemma {:induction false} PastStep(retention: nat, s: State, a: Action)
    requires ClaimsBounded(s) && ClaimsDistinct(s) && SuccessesPast(s)
    ensures SuccessesPast(Step(retention, s, a))
  {
  }

  lemma {:induction false} ClaimsStep(retention: nat, s: State, a: Action)
    requires ClaimsOk(s)
    ensures ClaimsOk(Step(retention, s, a))
  {
    DistinctStep(retention, s, a);
    PastStep(retention, s, a);
  }

  lemma {:induction false} RowsAgreeStep(retention: nat, s: State, a: Action)
    requires ClaimsOk(s) && RowsAgree(s)
    ensures RowsAgree(Step(retention, s, a))
  {
  }

  lemma {:induction false} SucceededStep(retention: nat, s: State, a: Action, k: Key, body: Body)
    requires Succeeded(s, k, body)
    ensures Succeeded(Step(retention, s, a), k, body)
  {
    var x :| x in s.successes && x.k == k && x.body == body;
    assert x in Step(retention, s, a).successes;
  }

  /** What is stored or replayed after a step was stored before, or is the answer to a call
      that succeeded. */
  lemma {:induction false} ResponsesStep(retention: nat, s: State, a: Action)
    requires ResponsesOk(s)
    ensures ResponsesOk(Step(retention, s, a))
  {
    var t := Step(retention, s, a);
    forall k, body | Succeeded(s, k, body) ensures Succeeded(t, k, body) {
      SucceededStep(retention, s, a, k, body);
    }
    if a.Create? && |t.successes| > |s.successes| {
      CreatedSucceeds(retention, s, a);
    }
  }

  lemma {:induction false} CreatedSucceeds(retention: nat, s: State, a: Action)
    requires a.Create? && a.ok && a.h in s.handlers && s.handlers[a.h].stage == DoCreate
    ensures Succeeded(Step(retention, s, a), s.handlers[a.h].k, s.handlers[a.h].body)
  {
    var me := s.handlers[a.h];
    assert Success(me.k, me.body, me.claim, me.expiresAt, s.now) in Step(retention, s, a).successes;
  }

  lemma {:induction false} RunKeepsInv(retention: nat, now: int, actions: seq<Action>)
    ensures Inv(Run(retention, now, actions))
  {
    if actions != [] {
      var front, a := actions[..|actions| - 1], actions[|actions| - 1];
      RunKeepsInv(retention, now, front);
      ClaimsStep(retention, Run(retention, now, front), a);
      RowsAgreeStep(retention, Run(retention, now, front), a);
      ResponsesStep(retention, Run(retention, now, front), a);
    }
  }

  /** In every run at all, a replay returns the response of an earlier success of the
      same request. */
  lemma {:induction false} ReplayIsStoredResponse(retention: nat, now: int, actions: seq<Action>, r: Reply)
    requires r in Run(retention, now, actions).replays
    ensures r.response == ResponseTo(r.body)
    ensures Succeeded(Run(retention, now, actions), r.k, r.body)
  {
    RunKeepsInv(retention, now, actions);
  }

  // ---------------------------------------------------------------------
  // At most one success during a claim's retention
  // ---------------------------------------------------------------------

  /** Two successes of one key: the later is not before the earlier claim expired. */
  ghost predicate AtMostOnce(s: State) {
    forall i, j :: 0 <= i < j < |s.successes| && s.successes[i].k == s.successes[j].k ==>
      s.successes[j].at >= s.successes[i].expiresAt
  }

  predicate Unexpired(s: State, x: Success) {
    s.now < x.expiresAt
  }

  /** While a success is unexpired its claim's row still guards the key. */
  ghost predicate Guarded(s: State) {
    forall x :: x in s.successes && Unexpired(s, x) ==>
      x.k in s.rows && s.rows[x.k].claim == x.claim && s.rows[x.k].expiresAt == x.expiresAt
  }

  /** The step deletes the row that guards an unexpired success. */
  ghost predicate Drops(s: State, a: Action) {
    && a.Abandon? && a.h in s.handlers && s.handlers[a.h].stage == DoAbandon
    && PendingMatch(s.rows, s.handlers[a.h].k, s.handlers[a.h].body)
    && exists x :: x in s.successes && Unexpired(s, x) && x.k == s.handlers[a.h].k
  }

  /** The call succeeds for a handler whose claim is no longer the key's row. */
  predicate StaleCreate(s: State, a: Action) {
    && a.Create? && a.ok && a.h in s.handlers && s.handlers[a.h].stage == DoCreate
    && !Holds(s, s.handlers[a.h])
  }

  ghost predicate Safe(retention: nat, now: int, actions: seq<Action>) {
    actions == [] ||
      (&& Safe(retention, now, actions[..|actions| - 1])
       && !Drops(Run(retention, now, actions[..|actions| - 1]), actions[|actions| - 1])
       && !StaleCreate(Run(retention, now, actions[..|actions| - 1]), actions[|actions| - 1]))
  }

  lemma {:induction false} GuardedStep(retention: nat, s: State, a: Action)
    requires Inv(s) && Guarded(s)
    requires !Drops(s, a) && !StaleCreate(s, a)
    ensures Guarded(Step(retention, s, a))
  {
    var t := Step(retention, s, a);
    forall x | x in t.successes && Unexpired(t, x)
      ensures x.k in t.rows && t.rows[x.k].claim == x.claim && t.rows[x.k].expiresAt == x.expiresAt
    {
      if x in s.successes {
        assert Unexpired(s, x);
      }
    }
  }

  lemma {:induction false} SafeStep(retention: nat, s: State, a: Action)
    requires Inv(s) && Guarded(s) && !Drops(s, a) && !StaleCreate(s, a) && AtMostOnce(s)
    ensures Guarded(Step(retention, s, a)) && AtMostOnce(Step(retention, s, a))
  {
    GuardedStep(retention, s, a);
  }

  /** If no step drops a guarding row or creates on a lost claim, the call succeeds at
      most once per key during a claim's retention. */
  lemma {:induction false} SafeRunsSucceedOnce(retention: nat, now: int, actions: seq<Action>)
    requires Safe(retention, now, actions)
    ensures Guarded(Run(retention, now, actions)) && AtMostOnce(Run(retention, now, actions))
  {
    if actions == [] {
      return;
    }
    var front := actions[..|actions| - 1];
    SafeRunsSucceedOnce(retention, now, front);
    RunKeepsInv(retention, now, front);
    SafeStep(retention, Run(retention, now, front), actions[|actions| - 1]);
  }

  /** The call succeeds although the key has an unexpired success. */
  predicate Repeats(s: State, a: Action) {
    && a.Create? && a.ok && a.h in s.handlers && s.handlers[a.h].stage == DoCreate
    && exists x :: x in s.successes && Unexpired(s, x) && x.k == s.handlers[a.h].k
  }

  ghost predicate NeverRepeats(retention: nat, now: int, actions: seq<Action>) {
    actions == [] ||
      (NeverRepeats(retention, now, actions[..|actions| - 1]) && !Repeats(Run(retention, now, actions[..|actions| - 1]), actions[|actions| - 1]))
  }

  lemma {:induction false} AtMostOnceStep(retention: nat, s: State, a: Action)
    ensures AtMostOnce(Step(retention, s, a)) <==> AtMostOnce(s) && !Repeats(s, a)
  {
    var t := Step(retention, s, a);
    if t.successes == s.successes {
      return;
    }
    var n := |s.successes|;
    assert t.successes[..n] == s.successes;
    if Repeats(s, a) {
      var x :| x in s.successes && Unexpired(s, x) && x.k == s.handlers[a.h].k;
      var i :| 0 <= i < n && s.successes[i] == x;
      assert t.successes[i].k == t.successes[n].k && t.successes[n].at < t.successes[i].expiresAt;
    }
    if AtMostOnce(t) {
      forall i, j | 0 <= i < j < n && s.successes[i].k == s.successes[j].k ensures s.successes[j].at >= s.successes[i].expiresAt {
        assert t.successes[i] == s.successes[i] && t.successes[j] == s.successes[j];
      }
    }
  }

  /** In a run the call succeeds at most once per key and retention if and only if it never
      succeeds while the key has an unexpired success. */
  lemma {:induction false} SucceedsOnceIff(retention: nat, now: int, actions: seq<Action>)
    ensures AtMostOnce(Run(retention, now, actions)) <==> NeverRepeats(retention, now, actions)
  {
    if actions != [] {
      var front, a := actions[..|actions| - 1], actions[|actions| - 1];
      SucceedsOnceIff(retention, now, front);
      AtMostOnceStep(retention, Run(retention, now, front), a);
    }
  }

  lemma {:induction false} UnsafeStep(retention: nat, now: int, actions: seq<Action>) returns (i: nat)
    requires !Safe(retention, now, actions)
    ensures i < |actions|
    ensures var s := Run(retention, now, actions[..i]);
      Drops(s, actions[i]) || StaleCreate(s, actions[i])
  {
    var front, a := actions[..|actions| - 1], actions[|actions| - 1];
    if Safe(retention, now, front) {
      i := |actions| - 1;
      return;
    }
    i := UnsafeStep(retention, now, front);
    assert actions[..i] == front[..i];
  }

  /** Each such step is itself a call for a handler that lost its claim, or comes after one,
      or after an abandoned success. */
  lemma {:induction false} RepeatHasCause(retention: nat, now: int, actions: seq<Action>) returns (i: nat)
    requires !NeverRepeats(retention, now, actions)
    ensures i < |actions|
    ensures var s := Run(retention, now, actions[..i]);
      Drops(s, actions[i]) || StaleCreate(s, actions[i])
  {
    SucceedsOnceIff(retention, now, actions);
    assert !Safe(retention, now, actions) by {
      if Safe(retention, now, actions) {
        SafeRunsSucceedOnce(retention, now, actions);
      }
    }
    i := UnsafeStep(retention, now, actions);
  }

  /** A handler that outlived its claim repeats a success of the claim that replaced it. */
  lemma {:induction false} StaleHandlerSucceedsAgain(retention: nat, s: State, i: nat, h: nat)
    requires i < |s.successes| && Unexpired(s, s.successes[i])
    requires h in s.handlers && s.handlers[h].stage == DoCreate && s.handlers[h].k == s.successes[i].k
    ensures !AtMostOnce(Step(retention, s, Create(h, true)))
  {
    AtMostOnceStep(retention, s, Create(h, true));
    assert s.successes[i] in s.successes;
  }

  /** Once a guarding row is gone, the next request for the key succeeds again inside the
      first claim's retention. */
  lemma {:induction false} DroppedKeySucceedsAgain(retention: nat, s: State, i: nat, h: nat)
    requires i < |s.successes| && Unexpired(s, s.successes[i])
    requires s.successes[i].k !in s.rows && s.successes[i].k.key != ""
    requires h !in s.handlers
    ensures var x := s.successes[i];
      !AtMostOnce(Step(retention, Step(retention, Step(retention, s, Claim(h, x.k, x.body)), Check(h, true)), Create(h, true)))
  {
    var x := s.successes[i];
    assert x.k !in PurgeExpired(s.rows, s.now);
    var s2 := Step(retention, Step(retention, s, Claim(h, x.k, x.body)), Check(h, true));
    StaleHandlerSucceedsAgain(retention, s2, i, h);
  }

  /** A storage failure of `complete` makes the handler abandon its claim although its call
      succeeded. */
  lemma {:induction false} FailedCompleteDrops(retention: nat, s: State, h: nat, x: Success)
    requires Inv(s)
    requires h in s.handlers && s.handlers[h].stage == DoComplete
    requires PendingMatch(s.rows, s.handlers[h].k, s.handlers[h].body)
    requires x in s.successes && Unexpired(s, x) && x.k == s.handlers[h].k
    ensures var t := Step(retention, s, Complete(h, true));
      && Drops(t, Abandon(h))
      && x.k !in Step(retention, t, Abandon(h)).rows
  {
    var t := Step(retention, s, Complete(h, true));
    assert x in t.successes && Unexpired(t, x);
  }

  // ---------------------------------------------------------------------
  // Runs in which the call succeeds twice
  // ---------------------------------------------------------------------

  lemma {:induction false} RunOn(actions: seq<Action>, s: State, a: Action, retention: nat) returns (more: seq<Action>, t: State)
    requires Run(retention, 0, actions) == s
    ensures more == actions + [a] && t == Step(retention, s, a) && Run(retention, 0, more) == t
  {
    more, t := actions + [a], Step(retention, s, a);
    assert more[..|more| - 1] == actions;
  }

  const ROUTE := Key("t", "create_project", "k")

  /** A free key is claimed, and the handler gets as far as its call. */
  lemma {:induction false} Granted(actions: seq<Action>, s: State, h: nat, retention: nat) returns (more: seq<Action>, t: State)
    requires Run(retention, 0, actions) == s && h !in s.handlers && ROUTE !in PurgeExpired(s.rows, s.now)
    ensures more == actions + [Claim(h, ROUTE, "b"), Check(h, true)] && Run(retention, 0, more) == t
    ensures t == s.(nextClaim := s.nextClaim + 1,
      rows := PurgeExpired(s.rows, s.now)[ROUTE := Row(s.nextClaim, "b", None, s.now + retention)],
      handlers := s.handlers[h := Handler(ROUTE, "b", s.nextClaim, s.now + retention, DoCreate)])
  {
    var a1, s1 := RunOn(actions, s, Claim(h, ROUTE, "b"), retention);
    more, t := RunOn(a1, s1, Check(h, true), retention);
    assert s1.handlers[h := t.handlers[h]] == s.handlers[h := t.handlers[h]];
  }

  /** The storage refuses `complete` after the call; the handler abandons, and the next
      request with the key succeeds again at once. */
  lemma {:induction false} FailedCompleteRepeats() returns (actions: seq<Action>)
    ensures !AtMostOnce(Run(10, 0, actions))
  {
    var a0, s0 := Granted([], Start(0), 0, 10);
    var a1, s1 := RunOn(a0, s0, Create(0, true), 10);
    var a2, s2 := RunOn(a1, s1, Complete(0, true), 10);
    var a3, s3 := RunOn(a2, s2, Abandon(0), 10);
    assert s3.rows == map[] && s3.handlers == map[] && s3.successes == [Success(ROUTE, "b", 0, 10, 0)];
    var a4, s4 := Granted(a3, s3, 1, 10);
    var s5;
    actions, s5 := RunOn(a4, s4, Create(1, true), 10);
    assert s5.successes[0].k == s5.successes[1].k;
  }

  /** A handler outlives its claim; the one that claimed the key after it succeeds, and then
      so does the first. */
  lemma {:induction false} StaleHandlerRepeats() returns (actions: seq<Action>)
    ensures !AtMostOnce(Run(1, 0, actions))
  {
    var a0, s0 := Granted([], Start(0), 0, 1);
    var a1, s1 := RunOn(a0, s0, Tick(1), 1);
    var a2, s2 := Granted(a1, s1, 1, 1);
    var a3, s3 := RunOn(a2, s2, Create(1, true), 1);
    var s4;
    actions, s4 := RunOn(a3, s3, Create(0, true), 1);
    assert s4.successes[0].k == s4.successes[1].k;
  }

  ghost predicate NeverDrops(retention: nat, now: int, actions: seq<Action>) {
    actions == [] ||
      (NeverDrops(retention, now, actions[..|actions| - 1])
      && !Drops(Run(retention, now, actions[..|actions| - 1]), actions[|actions| - 1]))
  }

  lemma {:induction false} DroplessOn(retention: nat, actions: seq<Action>, more: seq<Action>, a: Action)
    requires NeverDrops(retention, 0, actions) && more == actions + [a] && !Drops(Run(retention, 0, actions), a)
    ensures NeverDrops(retention, 0, more)
  {
    assert more[..|more| - 1] == actions;
  }

  /** A step that drops nothing. */
  lemma {:induction false} KeepOn(actions: seq<Action>, s: State, a: Action, retention: nat) returns (more: seq<Action>, t: State)
    requires Run(retention, 0, actions) == s && NeverDrops(retention, 0, actions) && !Drops(s, a)
    ensures t == Step(retention, s, a) && Run(retention, 0, more) == t && NeverDrops(retention, 0, more)
  {
    more, t := RunOn(actions, s, a, retention);
    DroplessOn(retention, actions, more, a);
  }

  /** A handler that outlived its claim gives up, and takes the pending row of the next
      handler with it: no success exists yet, so none is dropped. */
  lemma {:induction false} ClaimLost() returns (actions: seq<Action>, s: State)
    ensures Run(2, 0, actions) == s && NeverDrops(2, 0, actions)
    ensures s == State(2, 2, map[], map[1 := Handler(ROUTE, "b", 1, 4, DoCheck)], [], {})
  {
    var a0, s0 := KeepOn([], Start(0), Claim(0, ROUTE, "b"), 2);
    var a1, s1 := KeepOn(a0, s0, Check(0, false), 2);
    var a2, s2 := KeepOn(a1, s1, Tick(2), 2);
    assert s2.handlers == map[0 := Handler(ROUTE, "b", 0, 2, DoAbandon)];
    var a3, s3 := KeepOn(a2, s2, Claim(1, ROUTE, "b"), 2);
    assert s3.rows == map[ROUTE := Row(1, "b", None, 4)];
    actions, s := KeepOn(a3, s3, Abandon(0), 2);
  }

  lemma {:induction false} LostClaimSucceeds() returns (actions: seq<Action>, s: State)
    ensures Run(2, 0, actions) == s && NeverDrops(2, 0, actions)
    ensures s.now == 2 && s.rows == map[ROUTE := Row(2, "b", None, 4)] && s.successes == [Success(ROUTE, "b", 1, 4, 2)]
    ensures 2 in s.handlers && s.handlers[2] == Handler(ROUTE, "b", 2, 4, DoCheck)
  {
    var a0, s0 := ClaimLost();
    var a1, s1 := KeepOn(a0, s0, Check(1, true), 2);
    var a2, s2 := KeepOn(a1, s1, Claim(2, ROUTE, "b"), 2);
    assert s2.handlers[1] == Handler(ROUTE, "b", 1, 4, DoCreate);
    actions, s := KeepOn(a2, s2, Create(1, true), 2);
  }

  /** So a repeated success need be neither on a lost claim itself nor after a drop: here
      the first of two successes was on a lost claim, and the second holds its own. */
  lemma {:induction false} LostClaimRepeats() returns (actions: seq<Action>, a: Action)
    ensures NeverDrops(2, 0, actions)
    ensures Repeats(Run(2, 0, actions), a) && !StaleCreate(Run(2, 0, actions), a)
  {
    var a0, s0 := LostClaimSucceeds();
    var s1;
    actions, s1 := KeepOn(a0, s0, Check(2, true), 2);
    a := Create(2, true);
    assert s1.successes[0] in s1.successes;
  }

  // ---------------------------------------------------------------------
  // Prompt handlers on working storage are safe
  // ---------------------------------------------------------------------

  /** Handlers act only before their claim expires, and `complete` is not refused by
      the storage itself. */
  predicate Prompt(s: State, a: Action) {
    && (a.Check? || a.Create? || a.Complete? || a.Abandon? ==> a.h in s.handlers ==> s.now < s.handlers[a.h].expiresAt)
    && (a.Complete? ==> !a.storageFails)
  }

  /** Every step of the run is prompt. */
  ghost predicate PromptRun(retention: nat, now: int, actions: seq<Action>) {
    actions == [] ||
      (PromptRun(retention, now, actions[..|actions| - 1])
      && Prompt(Run(retention, now, actions[..|actions| - 1]), actions[|actions| - 1]))
  }

  /** An unexpired handler still holds its pending row, and abandons only failures. */
  ghost predicate Owned(s: State) {
    HoldsPending(s) && AbandonsFailures(s)
  }

  ghost predicate HoldsPending(s: State) {
    forall h :: h in s.handlers && s.now < s.handlers[h].expiresAt ==>
      Holds(s, s.handlers[h]) && s.rows[s.handlers[h].k].response.None?
  }

  ghost predicate AbandonsFailures(s: State) {
    forall h, x :: h in s.handlers && s.handlers[h].stage == DoAbandon && x in s.successes ==>
      x.claim != s.handlers[h].claim
  }

  lemma {:induction false} AbandonsFailuresStep(retention: nat, s: State, a: Action)
    requires ClaimsOk(s) && RowsAgree(s) && HoldsPending(s) && AbandonsFailures(s) && Prompt(s, a)
    ensures AbandonsFailures(Step(retention, s, a))
  {
  }

  lemma {:induction false} HoldsPendingStep(retention: nat, s: State, a: Action)
    requires ClaimsOk(s) && RowsAgree(s) && HoldsPending(s) && Prompt(s, a)
    ensures HoldsPending(Step(retention, s, a))
  {
  }

  lemma {:induction false} OwnedStep(retention: nat, s: State, a: Action)
    requires Inv(s) && Owned(s) && Prompt(s, a)
    ensures Owned(Step(retention, s, a))
  {
    HoldsPendingStep(retention, s, a);
    AbandonsFailuresStep(retention, s, a);
  }

  lemma {:induction false} OwnedIsSafe(s: State, a: Action)
    requires Inv(s) && Owned(s) && Guarded(s) && Prompt(s, a)
    ensures !Drops(s, a) && !StaleCreate(s, a)
  {
    if a.Abandon? && a.h in s.handlers && s.handlers[a.h].stage == DoAbandon {
    }
  }

  /** The protocol's promise: when handlers finish before their claims expire and the
      storage accepts completions, `create_project` succeeds at most once per tenant,
      operation and key during a claim's retention. */
  lemma {:induction false} PromptRunsSucceedOnce(retention: nat, now: int, actions: seq<Action>)
    requires PromptRun(retention, now, actions)
    ensures AtMostOnce(Run(retention, now, actions))
    ensures Owned(Run(retention, now, actions)) && Guarded(Run(retention, now, actions))
  {
    if actions != [] {
      var front, a := actions[..|actions| - 1], actions[|actions| - 1];
      PromptRunsSucceedOnce(retention, now, front);
      RunKeepsInv(retention, now, front);
      var s := Run(retention, now, front);
      OwnedIsSafe(s, a);
      OwnedStep(retention, s, a);
      GuardedStep(retention, s, a);
    }
  }

  // ---------------------------------------------------------------------
  // Refusals and retries
  // ---------------------------------------------------------------------

  /** The step lets go of key k: a handler for it abandons. */
  predicate LetsGo(s: State, a: Action, k: Key) {
    a.Abandon? && a.h in s.handlers && s.handlers[a.h].k == k
  }

  lemma {:induction false} ClaimRefused(rows: map<Key, Row>, k: Key, body: Body, now: int, retention: nat, claim: nat)
    requires k in rows && rows[k].expiresAt > now
    ensures var (after, answer) := ClaimRow(rows, k, body, now, retention, claim);
      && answer != New && after == rows
      && (k.key != "" && body != rows[k].body ==> answer == Conflict)
      && (k.key != "" && body == rows[k].body ==>
            answer == if rows[k].response.Some? then Replay(rows[k].response.value) else InProgress)
  {
    assert k in PurgeExpired(rows, now) && PurgeExpired(rows, now)[k] == rows[k];
  }

  lemma {:induction false} RowStays(retention: nat, s: State, a: Action, k: Key)
    requires k in s.rows && s.rows[k].expiresAt > Step(retention, s, a).now && !LetsGo(s, a, k)
    ensures var t := Step(retention, s, a);
      k in t.rows && t.rows[k].claim == s.rows[k].claim && t.rows[k].body == s.rows[k].body && t.rows[k].expiresAt == s.rows[k].expiresAt
  {
    if a.Claim? {
      ClaimRefused(s.rows, k, a.body, s.now, retention, s.nextClaim);
    }
  }

  lemma {:induction false} RunExtends(retention: nat, now: int, actions: seq<Action>, more: seq<Action>)
    requires more != []
    ensures Run(retention, now, actions + more)
         == Step(retention, Run(retention, now, actions + more[..|more| - 1]), more[|more| - 1])
  {
    assert (actions + more)[..|actions + more| - 1] == actions + more[..|more| - 1];
  }

  lemma {:induction false} TimeForward(retention: nat, s: State, a: Action)
    ensures Step(retention, s, a).now >= s.now
  {
  }

  /** However a run goes on, until its expiry or until a handler of the key abandons, a
      claim keeps its row and admits nobody else: another body is refused, the same body
      waits or is replayed, and the refusal changes nothing. */
  lemma {:induction false} LiveClaimAdmitsNobody(retention: nat, now: int, actions: seq<Action>, more: seq<Action>, k: Key, body: Body)
    requires k in Run(retention, now, actions).rows && k.key != ""
    requires Run(retention, now, actions).rows[k].expiresAt > Run(retention, now, actions + more).now
    requires forall i :: 0 <= i < |more| ==> !LetsGo(Run(retention, now, actions + more[..i]), more[i], k)
    ensures var row, t := Run(retention, now, actions).rows[k], Run(retention, now, actions + more);
      && k in t.rows && t.rows[k].claim == row.claim && t.rows[k].body == row.body && t.rows[k].expiresAt == row.expiresAt
      && ClaimRow(t.rows, k, body, t.now, retention, t.nextClaim) ==
           (t.rows, if body != row.body then Conflict
                    else if t.rows[k].response.Some? then Replay(t.rows[k].response.value) else InProgress)
  {
    var t := Run(retention, now, actions + more);
    if more == [] {
      assert actions + more == actions;
      ClaimRefused(t.rows, k, body, t.now, retention, t.nextClaim);
      return;
    }
    var front, a := more[..|more| - 1], more[|more| - 1];
    var s := Run(retention, now, actions + front);
    RunExtends(retention, now, actions, more);
    TimeForward(retention, s, a);
    forall i | 0 <= i < |front| ensures front[..i] == more[..i] && front[i] == more[i] {
    }
    LiveClaimAdmitsNobody(retention, now, actions, front, k, body);
    assert more[..|more| - 1] == front;
    RowStays(retention, s, a, k);
    ClaimRefused(t.rows, k, body, t.now, retention, t.nextClaim);
  }

  // ---------------------------------------------------------------------
  // A completed claim answers its retries
  // ---------------------------------------------------------------------

  /** The key's row holds this response under this claim. */
  predicate Completed(s: State, k: Key, claim: nat, body: Body, expiresAt: int) {
    k in s.rows && s.rows[k] == Row(claim, body, Some(ResponseTo(body)), expiresAt)
  }

  /** A completed row outlives every step before its expiry: nobody abandons or completes it
      again, and a purge takes expired rows only. */
  lemma {:induction false} CompletedStays(retention: nat, s: State, a: Action, k: Key, claim: nat, body: Body, expiresAt: int)
    requires Completed(s, k, claim, body, expiresAt) && Step(retention, s, a).now < expiresAt
    ensures Completed(Step(retention, s, a), k, claim, body, expiresAt)
  {
    if a.Claim? {
      ClaimRefused(s.rows, k, a.body, s.now, retention, s.nextClaim);
    }
  }

  lemma {:induction false} CompletedOn(retention: nat, now: int, actions: seq<Action>, more: seq<Action>, k: Key, claim: nat, body: Body,
    expiresAt: int)
    requires Completed(Run(retention, now, actions), k, claim, body, expiresAt)
    requires Run(retention, now, actions + more).now < expiresAt
    ensures Completed(Run(retention, now, actions + more), k, claim, body, expiresAt)
  {
    if more == [] {
      assert actions + more == actions;
      return;
    }
    var front, a := more[..|more| - 1], more[|more| - 1];
    var s := Run(retention, now, actions + front);
    RunExtends(retention, now, actions, more);
    TimeForward(retention, s, a);
    CompletedOn(retention, now, actions, front, k, claim, body, expiresAt);
    CompletedStays(retention, s, a, k, claim, body, expiresAt);
  }

  lemma {:induction false} CompletedAnswers(retention: nat, s: State, k: Key, claim: nat, body: Body, expiresAt: int, other: Body, g: nat)
    requires Completed(s, k, claim, body, expiresAt) && s.now < expiresAt && k.key != "" && g !in s.handlers
    ensures ClaimRow(s.rows, k, other, s.now, retention, s.nextClaim).1 == if other == body then Replay(ResponseTo(body)) else Conflict
    ensures Step(retention, s, Claim(g, k, other)) ==
      if other == body then s.(replays := s.replays + {Reply(k, body, ResponseTo(body))}) else s
  {
    ClaimRefused(s.rows, k, other, s.now, retention, s.nextClaim);
  }

  /** Once a handler completes the pending row of its key, and however the run goes on, the key
      keeps that row with the response until it expires: a claim with the same body is answered
      with the response, and one with another body is refused as a conflict. */
  lemma {:induction false} CompletedIsReplayed(retention: nat, now: int, actions: seq<Action>, h: nat, more: seq<Action>, g: nat, other: Body)
    requires var s := Run(retention, now, actions);
      && h in s.handlers && s.handlers[h].stage == DoComplete && s.handlers[h].k.key != ""
      && s.handlers[h].k in s.rows && s.rows[s.handlers[h].k].body == s.handlers[h].body && s.rows[s.handlers[h].k].response == None
    requires Run(retention, now, actions + [Complete(h, false)] + more).now < Run(retention, now, actions).rows[Run(retention, now, actions).handlers[h].k].expiresAt
    requires g !in Run(retention, now, actions + [Complete(h, false)] + more).handlers
    ensures var s, t := Run(retention, now, actions), Run(retention, now, actions + [Complete(h, false)] + more);
      var k, body := s.handlers[h].k, s.handlers[h].body;
      && k in t.rows && t.rows[k].response == Some(ResponseTo(body)) && t.rows[k].body == body
      && t.rows[k].claim == s.rows[k].claim && t.rows[k].expiresAt == s.rows[k].expiresAt
      && ClaimRow(t.rows, k, other, t.now, retention, t.nextClaim).1 == (if other == body then Replay(ResponseTo(body)) else Conflict)
      && Step(retention, t, Claim(g, k, other)) ==
           if other == body then t.(replays := t.replays + {Reply(k, body, ResponseTo(body))}) else t
  {
    var s, t := Run(retention, now, actions), Run(retention, now, actions + [Complete(h, false)] + more);
    var k, body := s.handlers[h].k, s.handlers[h].body;
    assert (actions + [Complete(h, false)])[..|actions|] == actions;
    assert Completed(Run(retention, now, actions + [Complete(h, false)]), k, s.rows[k].claim, body, s.rows[k].expiresAt);
    CompletedOn(retention, now, actions + [Complete(h, false)], more, k, s.rows[k].claim, body, s.rows[k].expiresAt);
    CompletedAnswers(retention, t, k, s.rows[k].claim, body, s.rows[k].expiresAt, other, g);
  }

  /** In a prompt run, whatever others do meanwhile, a handler whose attempt failed frees
      its key when it abandons: anybody may claim it, with any body. */
  lemma {:induction false} FailedAttemptFreesKey(retention: nat, now: int, actions: seq<Action>, h: nat, body: Body)
    requires PromptRun(retention, now, actions)
    requires var s := Run(retention, now, actions);
      h in s.handlers && s.handlers[h].stage == DoAbandon && s.now < s.handlers[h].expiresAt && s.handlers[h].k.key != ""
    ensures var s := Run(retention, now, actions); var t := Step(retention, s, Abandon(h));
      && s.handlers[h].k in s.rows && s.handlers[h].k !in t.rows
      && ClaimRow(t.rows, s.handlers[h].k, body, t.now, retention, t.nextClaim).1 == New
  {
    PromptRunsSucceedOnce(retention, now, actions);
    RunKeepsInv(retention, now, actions);
    var t := Step(retention, Run(retention, now, actions), Abandon(h));
    assert Run(retention, now, actions).handlers[h].k !in PurgeExpired(t.rows, t.now);
  }

  /** The handler of a granted claim holds that claim, and goes from the check to the call and
      from the call to its completion or abandonment; a call that succeeds is recorded with its
      handler's claim; a crash loses the handler and nothing else. */
  lemma {:induction false} HandlerSteps(retention: nat, s: State, h: nat, k: Key, body: string, ok: bool, seconds: nat)
    ensures h !in s.handlers && k.key != "" && k !in s.rows ==>
      Step(retention, s, Claim(h, k, body)).handlers == s.handlers[h := Handler(k, body, s.nextClaim, s.now + retention, DoCheck)]
    ensures h in s.handlers && s.handlers[h].stage == DoCheck ==>
      Step(retention, s, Check(h, ok)) == s.(handlers := s.handlers[h := s.handlers[h].(stage := if ok then DoCreate else DoAbandon)])
    ensures h in s.handlers && s.handlers[h].stage == DoCreate ==>
      var me := s.handlers[h];
      Step(retention, s, Create(h, ok))
        == s.(handlers := s.handlers[h := me.(stage := if ok then DoComplete else DoAbandon)],
              successes := s.successes + if ok then [Success(me.k, me.body, me.claim, me.expiresAt, s.now)] else [])
    ensures Step(retention, s, Crash(h)) == s.(handlers := s.handlers - {h})
    ensures Step(retention, s, Tick(seconds)) == s.(now := s.now + seconds)
  {
    assert s.successes + [] == s.successes;
  }
}
