/** What holds in every state of every run of the outbox, whatever the interleaving of relays,
    crashes, lost statements, expired leases and redeliveries. */
module OutboxSafety {
  import opened Options
  import opened OutboxMachine

  // ---- the invariant ---------------------------------------------------------------------

  ghost predicate Applied(c: Config, s: State, topic: Topic, id: EventId) {
    && c.Handlers(topic) != []
    && forall h :: 0 <= h < |c.Handlers(topic)| ==> (c.Handlers(topic)[h], id) in s.inbox
  }

  // Attempts are exact, the claim columns agree, and a held row still shows its grant's snapshot.
  ghost predicate RowOk(c: Config, grants: seq<Grant>, id: EventId, r: Row) {
    && (r.publishedAt.None? || r.failedAt.None?)
    && (if r.failedAt.Some? then r.attempts == c.maxAttempts else r.attempts < c.maxAttempts)
    && (r.claimToken.Some? <==> r.claimedUntil.Some?)
    && (r.claimToken.Some? ==>
          && r.Live()
          && r.claimToken.value < |grants|
          && id in grants[r.claimToken.value].attempts
          && grants[r.claimToken.value].attempts[id] == r.attempts
          && r.claimedUntil.value == grants[r.claimToken.value].until)
  }

  ghost predicate RowsOk(c: Config, s: State) {
    forall id :: id in s.rows ==> RowOk(c, s.grants, id, s.rows[id])
  }

  ghost predicate ClaimedOk(s: State, token: Token, e: Claimed) {
    && e.id in s.rows && s.rows[e.id].topic == e.topic && s.rows[e.id].metaOk == e.metaOk
    && token < |s.grants| && e.id in s.grants[token].attempts && s.grants[token].attempts[e.id] == e.attempts
  }

  ghost predicate PhaseOk(c: Config, k: Worker) {
    match k.phase
    case Delivering(i, h, _) => i < |k.events| && h <= |c.Handlers(k.events[i].topic)|
    case _ => k.Delivered() <= |k.events| && (k.phase.failure <==> k.Delivered() < |k.events|)
  }

  ghost predicate WorkerOk(c: Config, s: State, k: Worker) {
    && k.token < |s.grants|
    && PhaseOk(c, k)
    && Distinct(Ids(k.events))
    && forall e :: e in k.events ==> ClaimedOk(s, k.token, e)
  }

  ghost predicate DeliveredOk(c: Config, s: State, k: Worker) {
    && (forall j :: 0 <= j < k.Delivered() && j < |k.events| ==> Applied(c, s, k.events[j].topic, k.events[j].id))
    && (k.phase.Delivering? && k.phase.index < |k.events| && !k.phase.bad ==>
          var e := k.events[k.phase.index];
          forall h :: 0 <= h < k.phase.handler && h < |c.Handlers(e.topic)| ==> (c.Handlers(e.topic)[h], e.id) in s.inbox)
  }

  // A relay that has not settled an event either still holds the row or has outlived its lease.
  ghost predicate HeldOrExpired(s: State, k: Worker) {
    forall j :: k.Unsettled() <= j < |k.events| && k.events[j].id in s.rows && k.token < |s.grants| ==>
      s.rows[k.events[j].id].claimToken == Some(k.token) || s.grants[k.token].until < s.now
  }

  ghost predicate WorkersOk(c: Config, s: State) {
    forall w :: w in s.workers ==>
      WorkerOk(c, s, s.workers[w]) && DeliveredOk(c, s, s.workers[w]) && HeldOrExpired(s, s.workers[w])
  }

  ghost predicate TokensDistinct(s: State) {
    forall v, w :: v in s.workers && w in s.workers && v != w ==> s.workers[v].token != s.workers[w].token
  }

  // Two unsettled claims of one event: the earlier lease had run out when the later took effect.
  ghost predicate SharedOk(s: State, v: Worker, w: Worker) {
    forall i, j :: v.Unsettled() <= i < |v.events| && w.Unsettled() <= j < |w.events|
      && v.events[i].id == w.events[j].id && v.token < w.token < |s.grants|
      ==> s.grants[v.token].until < s.grants[w.token].takenAt
  }

  ghost predicate AllSharedOk(s: State) {
    forall v, w :: v in s.workers && w in s.workers ==> SharedOk(s, s.workers[v], s.workers[w])
  }

  ghost predicate EffectsOk(s: State) {
    forall key :: s.effects[key] == if key in s.inbox then 1 else 0
  }

  ghost predicate PublishedOk(c: Config, s: State) {
    forall id :: id in s.rows && s.rows[id].publishedAt.Some? ==> Applied(c, s, s.rows[id].topic, id)
  }

  ghost predicate Inv(c: Config, s: State) {
    && RowsOk(c, s) && WorkersOk(c, s) && TokensDistinct(s) && AllSharedOk(s)
    && EffectsOk(s) && PublishedOk(c, s)
  }

  // ---- each part is kept by each step ----------------------------------------------------

  lemma RowsStep(c: Config, s: State, step: Step)
    requires c.Valid() && Enabled(c, s, step) && RowsOk(c, s) && WorkersOk(c, s)
    ensures RowsOk(c, Do(c, s, step))
  {
    forall id | id in Do(c, s, step).rows ensures RowOk(c, Do(c, s, step).grants, id, Do(c, s, step).rows[id]) {
      RowStep(c, s, step, id);
    }
  }

  lemma NewRowsOk(c: Config, s: State, step: Step, id: EventId)
    requires c.Valid() && Enabled(c, s, step) && (step.Append? || step.Claim? || step.Requeue?)
    requires RowsOk(c, s) && id in Do(c, s, step).rows
    ensures RowOk(c, Do(c, s, step).grants, id, Do(c, s, step).rows[id])
  {
    if id in s.rows { assert RowOk(c, s.grants, id, s.rows[id]); }
  }

  lemma RowStep(c: Config, s: State, step: Step, id: EventId)
    requires c.Valid() && Enabled(c, s, step) && RowsOk(c, s) && WorkersOk(c, s) && id in Do(c, s, step).rows
    ensures RowOk(c, Do(c, s, step).grants, id, Do(c, s, step).rows[id])
  {
    match step {
      case Settle(w, _, at) => SettleRowStep(c, s, s.workers[w], at, id);
      case Append(_, _, _, _) => NewRowsOk(c, s, step, id);
      case Claim(_, _, _) => NewRowsOk(c, s, step, id);
      case Requeue(_, _) => NewRowsOk(c, s, step, id);
      case _ => assert RowOk(c, s.grants, id, s.rows[id]);
    }
  }

  lemma SettleRowStep(c: Config, s: State, k: Worker, at: int, id: EventId)
    requires c.Valid() && RowsOk(c, s) && WorkerOk(c, s, k) && id in s.rows
    ensures id in SettleRows(c, s, k, at) && RowOk(c, s.grants, id, SettleRows(c, s, k, at)[id])
  {
    assert RowOk(c, s.grants, id, s.rows[id]);
    if k.phase.Recording? && k.phase.delivered < |k.events| {
      assert ClaimedOk(s, k.token, k.events[k.phase.delivered]);
    }
  }

  // Rows never disappear, and their topic and meta never change.
  lemma RowsKept(c: Config, s: State, step: Step, id: EventId)
    requires Enabled(c, s, step) && id in s.rows
    ensures id in Do(c, s, step).rows
    ensures Do(c, s, step).rows[id].topic == s.rows[id].topic
    ensures Do(c, s, step).rows[id].metaOk == s.rows[id].metaOk
    ensures |s.grants| <= |Do(c, s, step).grants|
    ensures Do(c, s, step).grants[..|s.grants|] == s.grants
    ensures s.inbox <= Do(c, s, step).inbox
    ensures s.now <= Do(c, s, step).now
  {
  }

  lemma ClaimedKept(c: Config, s: State, step: Step, token: Token, e: Claimed)
    requires Enabled(c, s, step) && ClaimedOk(s, token, e)
    ensures ClaimedOk(Do(c, s, step), token, e)
  {
    RowsKept(c, s, step, e.id);
  }

  predicate ActsFor(step: Step, w: WorkerId) {
    match step
    case Claim(v, _, _) => v == w
    case Handle(v, _) => v == w
    case Reject(v) => v == w
    case Finish(v) => v == w
    case Settle(v, _, _) => v == w
    case Crash(v) => v == w
    case _ => false
  }

  // A relay acts only through its own steps; otherwise its memory is untouched.
  lemma OthersKept(c: Config, s: State, step: Step, w: WorkerId)
    requires Enabled(c, s, step) && !ActsFor(step, w)
    ensures w in Do(c, s, step).workers <==> w in s.workers
    ensures w in s.workers ==> Do(c, s, step).workers[w] == s.workers[w]
  {
  }

  lemma WorkerStep(c: Config, s: State, step: Step, w: WorkerId)
    requires Enabled(c, s, step) && WorkersOk(c, s) && w in Do(c, s, step).workers
    ensures WorkerOk(c, Do(c, s, step), Do(c, s, step).workers[w])
  {
    hide DeliveredOk, HeldOrExpired, Applied;
    var t := Do(c, s, step);
    var k := t.workers[w];
    if step.Claim? && step.w == w {
      assert Ids(k.events) == step.ids;
    } else {
      if !ActsFor(step, w) { OthersKept(c, s, step, w); }
      var old_ := s.workers[w];
      assert WorkerOk(c, s, old_) && k.events == old_.events && k.token == old_.token;
      forall e | e in k.events ensures ClaimedOk(t, k.token, e) {
        ClaimedKept(c, s, step, k.token, e);
      }
    }
  }

  lemma AppliedKept(c: Config, s: State, step: Step, topic: Topic, id: EventId)
    requires Enabled(c, s, step) && Applied(c, s, topic, id)
    ensures Applied(c, Do(c, s, step), topic, id)
  {
    assert s.inbox <= Do(c, s, step).inbox;
  }

  lemma DeliveredKept(c: Config, s: State, step: Step, k: Worker)
    requires Enabled(c, s, step) && DeliveredOk(c, s, k)
    ensures DeliveredOk(c, Do(c, s, step), k)
  {
    assert s.inbox <= Do(c, s, step).inbox;
    forall j | 0 <= j < k.Delivered() && j < |k.events|
      ensures Applied(c, Do(c, s, step), k.events[j].topic, k.events[j].id)
    {
      AppliedKept(c, s, step, k.events[j].topic, k.events[j].id);
    }
  }

  // Handling adds the handler's inbox row; finishing an event whose handlers all accepted it counts it.
  lemma DeliveredHandle(c: Config, s: State, w: WorkerId, outcome: Outcome)
    requires Enabled(c, s, Handle(w, outcome)) && DeliveredOk(c, s, s.workers[w])
    ensures DeliveredOk(c, HandleState(c, s, w, outcome), HandleState(c, s, w, outcome).workers[w])
  {
    DeliveredKept(c, s, Handle(w, outcome), s.workers[w]);
  }

  lemma DeliveredFinish(c: Config, s: State, w: WorkerId)
    requires Enabled(c, s, Finish(w)) && DeliveredOk(c, s, s.workers[w])
    ensures DeliveredOk(c, s, s.workers[w].(phase := FinishPhase(s.workers[w])))
  {
    var k := s.workers[w];
    var e := k.events[k.phase.index];
    if !k.phase.bad {
      assert Applied(c, s, e.topic, e.id);
    }
  }

  lemma DeliveredStep(c: Config, s: State, step: Step, w: WorkerId)
    requires Enabled(c, s, step) && WorkersOk(c, s) && w in Do(c, s, step).workers
    ensures DeliveredOk(c, Do(c, s, step), Do(c, s, step).workers[w])
  {
    if !ActsFor(step, w) {
      OthersKept(c, s, step, w);
      DeliveredKept(c, s, step, s.workers[w]);
    } else {
      match step {
        case Claim(_, _, _) =>
        case Handle(_, outcome) => DeliveredHandle(c, s, w, outcome);
        case Finish(_) =>
          DeliveredFinish(c, s, w);
          DeliveredKept(c, s, step, s.workers[w].(phase := FinishPhase(s.workers[w])));
        case Reject(_) => DeliveredKept(c, s, step, s.workers[w]);
        case Settle(_, _, _) => DeliveredKept(c, s, step, s.workers[w]);
        case _ =>
      }
    }
  }

  lemma SettledRowKept(c: Config, s: State, k: Worker, at: int, id: EventId, token: Token)
    requires id in s.rows && k.token != token && s.rows[id].claimToken == Some(token)
    ensures id in SettleRows(c, s, k, at) && SettleRows(c, s, k, at)[id] == s.rows[id]
  {
  }

  // Only its own settling statement, or a claim made after its lease ran out, takes a row from a relay.
  lemma HeldStep(c: Config, s: State, step: Step, w: WorkerId)
    requires c.Valid() && Enabled(c, s, step) && Inv(c, s) && w in Do(c, s, step).workers
    ensures HeldOrExpired(Do(c, s, step), Do(c, s, step).workers[w])
  {
    hide RowsOk, TokensDistinct, AllSharedOk, EffectsOk, PublishedOk, DeliveredOk, PhaseOk;
    var t := Do(c, s, step);
    var k := t.workers[w];
    if step.Claim? && step.w == w {
      forall j | 0 <= j < |k.events| ensures t.rows[k.events[j].id].claimToken == Some(k.token) {
        assert k.events[j].id == step.ids[j];
      }
    } else {
      if !ActsFor(step, w) { OthersKept(c, s, step, w); }
      var was := s.workers[w];
      assert HeldOrExpired(s, was) && WorkerOk(c, s, was);
      forall j | k.Unsettled() <= j < |k.events|
        ensures k.events[j].id in t.rows && k.token < |t.grants|
        ensures t.rows[k.events[j].id].claimToken == Some(k.token) || t.grants[k.token].until < t.now
      {
        HeldRowStep(c, s, step, w, j);
      }
    }
  }

  lemma HeldRowStep(c: Config, s: State, step: Step, w: WorkerId, j: nat)
    requires c.Valid() && Enabled(c, s, step) && Inv(c, s)
    requires w in s.workers && w in Do(c, s, step).workers && !(step.Claim? && step.w == w)
    requires Do(c, s, step).workers[w].Unsettled() <= j < |s.workers[w].events|
    requires Do(c, s, step).workers[w].token == s.workers[w].token
    requires Do(c, s, step).workers[w].events == s.workers[w].events
    ensures var k := s.workers[w]; var t := Do(c, s, step);
            k.events[j].id in t.rows && k.token < |t.grants| &&
            (t.rows[k.events[j].id].claimToken == Some(k.token) || t.grants[k.token].until < t.now)
  {
    hide AllSharedOk, EffectsOk, PublishedOk, DeliveredOk;
    var t := Do(c, s, step);
    var k := s.workers[w];
    var id := k.events[j].id;
    if !ActsFor(step, w) { OthersKept(c, s, step, w); }
    assert k.Unsettled() <= j;
    assert WorkerOk(c, s, k) && ClaimedOk(s, k.token, k.events[j]) && HeldOrExpired(s, k);
    RowsKept(c, s, step, id);
    assert t.grants[k.token] == s.grants[k.token];
    if s.rows[id].claimToken == Some(k.token) {
      assert RowOk(c, s.grants, id, s.rows[id]);
      match step {
        case Settle(v, _, at) =>
          if v != w {
            SettledRowKept(c, s, s.workers[v], at, id, k.token);
          } else {
            OwnSettleKeeps(c, s, k, at, j);
          }
        case _ =>
      }
    }
  }

  // A settling statement touches only the part of the batch it settles.
  lemma OwnSettleKeeps(c: Config, s: State, k: Worker, at: int, j: nat)
    requires WorkerOk(c, s, k) && !k.phase.Delivering? && j < |k.events| && k.events[j].id in s.rows
    requires j >= (match k.phase case Publishing(d, _) => d case Recording(d, _) => d + 1 case _ => |k.events|)
    ensures k.events[j].id in SettleRows(c, s, k, at) && SettleRows(c, s, k, at)[k.events[j].id] == s.rows[k.events[j].id]
  {
    var ids := Ids(k.events);
    assert ids[j] == k.events[j].id;
    match k.phase {
      case Publishing(d, _) => assert Ids(k.events[..d]) == ids[..d];
      case Recording(d, f) => if f { assert ids[d] == k.events[d].id; }
      case _ =>
    }
  }

  lemma TokensStep(c: Config, s: State, step: Step)
    requires Enabled(c, s, step) && WorkersOk(c, s) && TokensDistinct(s)
    ensures TokensDistinct(Do(c, s, step))
  {
    var t := Do(c, s, step);
    forall v, w | v in t.workers && w in t.workers && v != w ensures t.workers[v].token != t.workers[w].token {
      if !ActsFor(step, v) { OthersKept(c, s, step, v); }
      if !ActsFor(step, w) { OthersKept(c, s, step, w); }
      assert v in s.workers ==> WorkerOk(c, s, s.workers[v]);
      assert w in s.workers ==> WorkerOk(c, s, s.workers[w]);
    }
  }

  // A row that an unsettled relay still holds is due again only once its lease has run out.
  lemma DueMeansExpired(c: Config, s: State, k: Worker, i: nat, at: int)
    requires RowsOk(c, s) && WorkerOk(c, s, k) && HeldOrExpired(s, k)
    requires k.Unsettled() <= i < |k.events| && k.events[i].id in s.rows && s.rows[k.events[i].id].Due(at) && at <= s.now
    ensures s.grants[k.token].until < s.now
  {
    assert ClaimedOk(s, k.token, k.events[i]);
    assert RowOk(c, s.grants, k.events[i].id, s.rows[k.events[i].id]);
  }

  // The later claim of a shared event can only have taken effect after the earlier lease ran out.
  lemma SharedWithClaim(c: Config, s: State, v: WorkerId, w: WorkerId, ids: seq<EventId>, at: int)
    requires Enabled(c, s, Claim(w, ids, at)) && RowsOk(c, s) && v in s.workers
    requires WorkerOk(c, s, s.workers[v]) && HeldOrExpired(s, s.workers[v])
    ensures SharedOk(ClaimState(c, s, w, ids, at), s.workers[v], ClaimState(c, s, w, ids, at).workers[w])
  {
    var t := ClaimState(c, s, w, ids, at);
    var kv, kw := s.workers[v], t.workers[w];
    assert Ids(kw.events) == ids;
    forall i, j | kv.Unsettled() <= i < |kv.events| && 0 <= j < |kw.events| && kv.events[i].id == kw.events[j].id
      ensures t.grants[kv.token].until < t.grants[kw.token].takenAt
    {
      assert kw.events[j].id == ids[j] && ids[j] in ids;
      DueMeansExpired(c, s, kv, i, at);
    }
  }

  lemma GrantsKept(c: Config, s: State, step: Step)
    requires Enabled(c, s, step)
    ensures s.grants <= Do(c, s, step).grants
  {
  }

  lemma UnsettledKept(c: Config, s: State, step: Step, w: WorkerId)
    requires Enabled(c, s, step) && w in s.workers && w in Do(c, s, step).workers && !(step.Claim? && step.w == w)
    ensures var k, l := s.workers[w], Do(c, s, step).workers[w];
            k.token == l.token && k.events == l.events && (PhaseOk(c, k) ==> k.Unsettled() <= l.Unsettled())
  {
    if !ActsFor(step, w) { OthersKept(c, s, step, w); }
  }

  lemma SharedOld(s: State, t: State, kv: Worker, kw: Worker, lv: Worker, lw: Worker)
    requires SharedOk(s, kv, kw) && s.grants <= t.grants && kw.token < |s.grants|
    requires kv.token == lv.token && kv.events == lv.events && kv.Unsettled() <= lv.Unsettled()
    requires kw.token == lw.token && kw.events == lw.events && kw.Unsettled() <= lw.Unsettled()
    ensures SharedOk(t, lv, lw)
  {
  }

  lemma SharedStep(c: Config, s: State, step: Step, v: WorkerId, w: WorkerId)
    requires Enabled(c, s, step) && RowsOk(c, s) && WorkersOk(c, s) && AllSharedOk(s)
    requires v in Do(c, s, step).workers && w in Do(c, s, step).workers
    ensures SharedOk(Do(c, s, step), Do(c, s, step).workers[v], Do(c, s, step).workers[w])
  {
    var t := Do(c, s, step);
    if step.Claim? && (step.w == v || step.w == w) {
      if v != w {
        OthersKept(c, s, step, if step.w == w then v else w);
      }
      if step.w == w && v in s.workers {
        SharedWithClaim(c, s, v, w, step.ids, step.at);
      }
    } else {
      GrantsKept(c, s, step);
      if !ActsFor(step, v) { OthersKept(c, s, step, v); }
      if !ActsFor(step, w) { OthersKept(c, s, step, w); }
      assert WorkerOk(c, s, s.workers[v]) && WorkerOk(c, s, s.workers[w]);
      UnsettledKept(c, s, step, v);
      UnsettledKept(c, s, step, w);
      SharedOld(s, t, s.workers[v], s.workers[w], t.workers[v], t.workers[w]);
    }
  }

  lemma EffectsStep(c: Config, s: State, step: Step)
    requires Enabled(c, s, step) && EffectsOk(s)
    ensures EffectsOk(Do(c, s, step))
  {
  }

  // A row becomes published only by the settling of a batch whose deliveries all succeeded.
  lemma NewlyPublished(c: Config, s: State, k: Worker, at: int, id: EventId)
    requires WorkerOk(c, s, k) && DeliveredOk(c, s, k) && id in s.rows
    requires s.rows[id].publishedAt.None? && id in SettleRows(c, s, k, at) && SettleRows(c, s, k, at)[id].publishedAt.Some?
    ensures Applied(c, s, s.rows[id].topic, id)
  {
    assert k.phase.Publishing? && id in Ids(k.events[..k.phase.delivered]);
    var j :| 0 <= j < k.phase.delivered && k.events[j].id == id;
    assert ClaimedOk(s, k.token, k.events[j]);
    assert Applied(c, s, k.events[j].topic, id);
  }

  lemma PublishedStep(c: Config, s: State, step: Step)
    requires Enabled(c, s, step) && RowsOk(c, s) && WorkersOk(c, s) && PublishedOk(c, s)
    ensures PublishedOk(c, Do(c, s, step))
  {
    var t := Do(c, s, step);
    forall id | id in t.rows && t.rows[id].publishedAt.Some? ensures Applied(c, t, t.rows[id].topic, id) {
      PublishedAt(c, s, step, id);
    }
  }

  lemma PublishedAt(c: Config, s: State, step: Step, id: EventId)
    requires Enabled(c, s, step) && RowsOk(c, s) && WorkersOk(c, s) && PublishedOk(c, s)
    requires id in Do(c, s, step).rows && Do(c, s, step).rows[id].publishedAt.Some?
    ensures Applied(c, Do(c, s, step), Do(c, s, step).rows[id].topic, id)
  {
    assert id in s.rows;
    RowsKept(c, s, step, id);
    if s.rows[id].publishedAt.None? {
      OnlySettlePublishes(c, s, step, id);
      NewlyPublished(c, s, s.workers[step.w], step.at, id);
    }
    AppliedKept(c, s, step, s.rows[id].topic, id);
  }

  lemma OnlySettlePublishes(c: Config, s: State, step: Step, id: EventId)
    requires Enabled(c, s, step) && id in s.rows && s.rows[id].publishedAt.None?
    requires id in Do(c, s, step).rows && Do(c, s, step).rows[id].publishedAt.Some?
    ensures step.Settle? && step.applied && Do(c, s, step).rows == SettleRows(c, s, s.workers[step.w], step.at)
  {
  }

  lemma InvStep(c: Config, s: State, step: Step)
    requires c.Valid() && Enabled(c, s, step) && Inv(c, s)
    ensures Inv(c, Do(c, s, step))
  {
    var t := Do(c, s, step);
    RowsStep(c, s, step);
    TokensStep(c, s, step);
    EffectsStep(c, s, step);
    PublishedStep(c, s, step);
    forall w | w in t.workers
      ensures WorkerOk(c, t, t.workers[w]) && DeliveredOk(c, t, t.workers[w]) && HeldOrExpired(t, t.workers[w])
    {
      WorkerStep(c, s, step, w);
      DeliveredStep(c, s, step, w);
      HeldStep(c, s, step, w);
    }
    forall v, w | v in t.workers && w in t.workers ensures SharedOk(t, t.workers[v], t.workers[w]) {
      SharedStep(c, s, step, v, w);
    }
  }

  // ---- whole runs ------------------------------------------------------------------------

  lemma {:induction false} InvAlong(c: Config, trace: seq<State>, i: nat)
    requires c.Valid() && Run(c, trace) && Init(trace[0]) && i < |trace|
    ensures Inv(c, trace[i])
    decreases i
  {
    if i > 0 {
      InvAlong(c, trace, i - 1);
      assert Next(c, trace[i - 1], trace[i]);
      var step :| Enabled(c, trace[i - 1], step) && trace[i] == Do(c, trace[i - 1], step);
      InvStep(c, trace[i - 1], step);
    }
  }

  /** Exactly-once effect. In every state of every run each (consumer, event) effect was committed at
      most once, and every consumer subscribed to a published event committed it exactly once. */
  lemma ExactlyOnceEffect(c: Config, trace: seq<State>, i: nat)
    requires c.Valid() && Run(c, trace) && Init(trace[0]) && i < |trace|
    ensures forall key :: trace[i].effects[key] <= 1
    ensures forall id :: id in trace[i].rows && trace[i].rows[id].publishedAt.Some? ==>
              c.Handlers(trace[i].rows[id].topic) != []
    ensures forall id, consumer {:trigger (consumer, id) in trace[i].inbox} {:trigger trace[i].effects[(consumer, id)]} ::
              id in trace[i].rows && trace[i].rows[id].publishedAt.Some?
              && consumer in c.Handlers(trace[i].rows[id].topic)
              ==> trace[i].effects[(consumer, id)] == 1
  {
    InvAlong(c, trace, i);
    var s := trace[i];
    forall id, consumer | id in s.rows && s.rows[id].publishedAt.Some? && consumer in c.Handlers(s.rows[id].topic)
      ensures s.effects[(consumer, id)] == 1
    {
      assert Applied(c, s, s.rows[id].topic, id);
      var h :| 0 <= h < |c.Handlers(s.rows[id].topic)| && c.Handlers(s.rows[id].topic)[h] == consumer;
      assert (c.Handlers(s.rows[id].topic)[h], id) in s.inbox;
    }
  }

  /** Fencing keeps attempt counts exact. A live row is below the limit, a dead row exactly at it, no
      row is both published and dead, and a row carrying a relay's token still shows the attempt
      count that relay read when it claimed. */
  lemma AttemptsExact(c: Config, trace: seq<State>, i: nat, id: EventId)
    requires c.Valid() && Run(c, trace) && Init(trace[0]) && i < |trace| && id in trace[i].rows
    ensures var r := trace[i].rows[id];
            && (r.Live() ==> r.attempts < c.maxAttempts)
            && (r.failedAt.Some? ==> r.attempts == c.maxAttempts && r.publishedAt.None?)
    ensures forall w, j :: w in trace[i].workers && 0 <= j < |trace[i].workers[w].events|
              && trace[i].workers[w].events[j].id == id
              && trace[i].rows[id].claimToken == Some(trace[i].workers[w].token)
              ==> trace[i].workers[w].events[j].attempts == trace[i].rows[id].attempts
  {
    InvAlong(c, trace, i);
    var s := trace[i];
    assert RowOk(c, s.grants, id, s.rows[id]);
    forall w, j | w in s.workers && 0 <= j < |s.workers[w].events| && s.workers[w].events[j].id == id
                  && s.rows[id].claimToken == Some(s.workers[w].token)
      ensures s.workers[w].events[j].attempts == s.rows[id].attempts
    {
      assert WorkerOk(c, s, s.workers[w]) && ClaimedOk(s, s.workers[w].token, s.workers[w].events[j]);
    }
  }

  lemma PublishedRowKept(c: Config, s: State, step: Step, id: EventId)
    requires Enabled(c, s, step) && id in s.rows && s.rows[id].publishedAt.Some?
    ensures id in Do(c, s, step).rows && Do(c, s, step).rows[id] == s.rows[id]
  {
    if step.Settle? {
      SettledPublishedKept(c, s, s.workers[step.w], step.at, id);
    }
  }

  lemma SettledPublishedKept(c: Config, s: State, k: Worker, at: int, id: EventId)
    requires id in s.rows && s.rows[id].publishedAt.Some?
    ensures id in SettleRows(c, s, k, at) && SettleRows(c, s, k, at)[id] == s.rows[id]
  {
  }

  /** Publishing is final: whatever happens later, a published row stays published. */
  lemma {:induction false} PublishedForever(c: Config, trace: seq<State>, i: nat, j: nat, id: EventId)
    requires Run(c, trace) && i <= j < |trace|
    requires id in trace[i].rows && trace[i].rows[id].publishedAt.Some?
    ensures id in trace[j].rows && trace[j].rows[id] == trace[i].rows[id]
    decreases j
  {
    hide Do, Enabled;
    if i < j {
      PublishedForever(c, trace, i, j - 1, id);
      assert Next(c, trace[j - 1], trace[j]);
      var step :| Enabled(c, trace[j - 1], step) && trace[j] == Do(c, trace[j - 1], step);
      PublishedRowKept(c, trace[j - 1], step, id);
    }
  }

  /** Two relays hold the same unsettled event only if the lease of the earlier claim had run out
      when the later claim took effect, whatever time its statement worked with. */
  lemma SharedOnlyAfterExpiry(c: Config, trace: seq<State>, i: nat, v: WorkerId, w: WorkerId, x: nat, y: nat)
    requires c.Valid() && Run(c, trace) && Init(trace[0]) && i < |trace|
    requires v in trace[i].workers && w in trace[i].workers && v != w
    requires trace[i].workers[v].Unsettled() <= x < |trace[i].workers[v].events|
    requires trace[i].workers[w].Unsettled() <= y < |trace[i].workers[w].events|
    requires trace[i].workers[v].events[x].id == trace[i].workers[w].events[y].id
    ensures var s := trace[i]; var a, b := s.workers[v].token, s.workers[w].token;
            a < |s.grants| && b < |s.grants| && a != b &&
            (a < b ==> s.grants[a].until < s.grants[b].takenAt) &&
            (b < a ==> s.grants[b].until < s.grants[a].takenAt)
  {
    InvAlong(c, trace, i);
    var s := trace[i];
    assert WorkerOk(c, s, s.workers[v]) && WorkerOk(c, s, s.workers[w]);
    assert SharedOk(s, s.workers[v], s.workers[w]) && SharedOk(s, s.workers[w], s.workers[v]);
  }
}
