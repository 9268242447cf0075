/**
 The gateway's identity cache in front of the identity table. A lookup answers from an unexpired
 entry, or loads the row; a load reads the table first and changes the cache later, so events and
 other loads may come in between.
 */
module IdentityCache {
  import opened Wrappers
  import opened Onboarding
  import History = OnboardingHistory

  datatype CachedIdentity = CachedIdentity(node: NodeId, gateway: GatewayId, expireAt: Time)

  datatype EventType = RevokedEvent | SuspendedEvent | RenewedEvent | OtherEvent

  /** What a load read from the table. */
  type Answer = Option<(NodeId, GatewayId)>

  datatype Load = Load(fingerprint: Fingerprint, answer: Answer, readAt: Time)

  /** The tables with their clock, one gateway's cache and the loads it has under way. */
  datatype World = World(
    onboarding: History.World, entries: map<Fingerprint, CachedIdentity>, loads: seq<Load>, ttl: int)

  datatype Step =
    | Onboard(step: History.Step)
    | LoadBegin(fingerprint: Fingerprint)
    | LoadEnd(index: nat, stamp: Time)
    | Event(kind: EventType, fingerprint: Fingerprint)
    | Invalidate(fingerprint: Fingerprint)
    | Refresh

  function Now(w: World): Time {
    w.onboarding.clock
  }

  /** The query of a load: the node and gateway of an Active row with the fingerprint. */
  ghost function LoadRow(db: Tables, f: Fingerprint): Answer {
    if exists i :: History.IsServedBy(db, f, i) then
      var i :| History.IsServedBy(db, f, i);
      Some((db.identities[i].node, db.identities[i].gateway))
    else None
  }

  /** The answer a lookup takes from the cache, if it takes one. */
  function Hit(w: World, f: Fingerprint): Answer {
    if f in w.entries && Now(w) < w.entries[f].expireAt then Some((w.entries[f].node, w.entries[f].gateway)) else None
  }

  function Removes(kind: EventType): bool {
    kind in {RevokedEvent, SuspendedEvent, RenewedEvent}
  }

  function Loaded(entries: map<Fingerprint, CachedIdentity>, f: Fingerprint, answer: Answer, expireAt: Time)
    : map<Fingerprint, CachedIdentity>
  {
    if answer.Some? then entries[f := CachedIdentity(answer.value.0, answer.value.1, expireAt)] else entries - {f}
  }

  /** A load takes the time for its expiry after it has read and before it changes the cache. */
  ghost function Do(w: World, s: Step): World {
    match s
    case Onboard(step) => w.(onboarding := History.Do(w.onboarding, step))
    case LoadBegin(f) => w.(loads := w.loads + [Load(f, LoadRow(w.onboarding.db, f), Now(w))])
    case LoadEnd(k, stamp) =>
      if k < |w.loads| && w.loads[k].readAt <= stamp <= Now(w) then
        w.(entries := Loaded(w.entries, w.loads[k].fingerprint, w.loads[k].answer, stamp + w.ttl),
           loads := w.loads[..k] + w.loads[k + 1..])
      else w
    case Event(kind, f) => if Removes(kind) then w.(entries := w.entries - {f}) else w
    case Invalidate(f) => w.(entries := w.entries - {f})
    case Refresh => w.(entries := map[])
  }

  ghost function Run(w: World, steps: seq<Step>): World {
    if |steps| == 0 then w else Do(Run(w, steps[..|steps| - 1]), steps[|steps| - 1])
  }

  lemma RunOne(w: World, steps: seq<Step>, s: Step)
    ensures Run(w, steps + [s]) == Do(Run(w, steps), s)
  {
    assert (steps + [s])[..|steps|] == steps;
  }

  // ---- every answer was true not long ago ----

  /** In some earlier state of the run, at time `at` or before, the table answered `f` with `who`. */
  ghost predicate Witnessed(w: World, steps: seq<Step>, f: Fingerprint, who: (NodeId, GatewayId), at: Time) {
    exists k :: 0 <= k <= |steps| && WitnessedAt(w, steps[..k], f, who, at)
  }

  ghost predicate WitnessedAt(w: World, prefix: seq<Step>, f: Fingerprint, who: (NodeId, GatewayId), at: Time) {
    Now(Run(w, prefix)) <= at
    && var identities := Run(w, prefix).onboarding.db.identities;
       exists i :: i in identities && identities[i].fingerprint == f && identities[i].status == Active
                   && identities[i].node == who.0 && identities[i].gateway == who.1
  }

  lemma LoadRowIsActive(db: Tables, f: Fingerprint)
    requires LoadRow(db, f).Some?
    ensures exists i :: i in db.identities && db.identities[i].fingerprint == f && db.identities[i].status == Active
                        && db.identities[i].node == LoadRow(db, f).value.0
                        && db.identities[i].gateway == LoadRow(db, f).value.1
  {
    assert exists i :: History.IsServedBy(db, f, i);
  }

  lemma WitnessStays(
    w: World, steps: seq<Step>, s: Step, f: Fingerprint, who: (NodeId, GatewayId), at: Time, later: Time)
    requires Witnessed(w, steps, f, who, at) && at <= later
    ensures Witnessed(w, steps + [s], f, who, later)
  {
    var k :| 0 <= k <= |steps| && WitnessedAt(w, steps[..k], f, who, at);
    assert (steps + [s])[..k] == steps[..k];
    assert WitnessedAt(w, (steps + [s])[..k], f, who, later);
  }

  lemma ClockAdvances(w: World, s: Step)
    ensures Now(w) <= Now(Do(w, s)) && Do(w, s).ttl == w.ttl
  {
  }

  ghost predicate EntryWitnessed(w: World, steps: seq<Step>, f: Fingerprint, e: CachedIdentity) {
    && e.expireAt - w.ttl <= Now(Run(w, steps))
    && Witnessed(w, steps, f, (e.node, e.gateway), e.expireAt - w.ttl)
  }

  /** Every entry was inserted, and every load under way was read, from a state of the run. */
  ghost predicate AllWitnessed(w: World, steps: seq<Step>) {
    var v := Run(w, steps);
    && v.ttl == w.ttl
    && (forall f :: f in v.entries ==> EntryWitnessed(w, steps, f, v.entries[f]))
    && (forall l :: l in v.loads ==> l.readAt <= Now(v))
    && (forall l :: l in v.loads && l.answer.Some? ==> Witnessed(w, steps, l.fingerprint, l.answer.value, l.readAt))
  }

  lemma AllWitnessedNext(w: World, steps: seq<Step>, s: Step)
    requires AllWitnessed(w, steps)
    ensures AllWitnessed(w, steps + [s])
  {
    var more := steps + [s];
    var u, v := Run(w, steps), Run(w, more);
    assert more[..|steps|] == steps;
    assert v == Do(u, s);
    ClockAdvances(u, s);
    forall f | f in v.entries ensures EntryWitnessed(w, more, f, v.entries[f]) {
      var e := v.entries[f];
      if f in u.entries && u.entries[f] == e {
        assert EntryWitnessed(w, steps, f, e);
        WitnessStays(w, steps, s, f, (e.node, e.gateway), e.expireAt - w.ttl, e.expireAt - w.ttl);
      } else {
        var l := u.loads[s.index];
        assert l in u.loads;
        WitnessStays(w, steps, s, f, l.answer.value, l.readAt, s.stamp);
      }
    }
    forall l | l in v.loads && l.answer.Some? ensures Witnessed(w, more, l.fingerprint, l.answer.value, l.readAt) {
      if l in u.loads {
        WitnessStays(w, steps, s, l.fingerprint, l.answer.value, l.readAt, l.readAt);
      } else {
        LoadRowIsActive(u.onboarding.db, l.fingerprint);
        assert WitnessedAt(w, more[..|steps|], l.fingerprint, l.answer.value, l.readAt);
      }
    }
  }

  lemma {:induction false} AlwaysWitnessed(w: World, steps: seq<Step>)
    requires w.entries == map[] && w.loads == []
    ensures AllWitnessed(w, steps)
  {
    if |steps| == 0 {
      assert Run(w, steps) == w;
    } else {
      var n := |steps| - 1;
      assert steps[..n] + [steps[n]] == steps;
      AlwaysWitnessed(w, steps[..n]);
      AllWitnessedNext(w, steps[..n], steps[n]);
    }
  }

  /**
   Every answer names a node and gateway whose row was Active with that fingerprint in some state of
   the run; an answer from the cache was inserted at a time `inserted` with now < inserted + ttl.
   */
  lemma AnswersWereTrue(w: World, steps: seq<Step>, f: Fingerprint)
    requires w.entries == map[] && w.loads == []
    ensures var v := Run(w, steps);
            && (Hit(v, f).Some? ==>
                  exists inserted :: inserted <= Now(v) < inserted + w.ttl
                      && Witnessed(w, steps, f, Hit(v, f).value, inserted))
            && (forall l :: l in v.loads && l.fingerprint == f && l.answer.Some? ==>
                  l.readAt <= Now(v) && Witnessed(w, steps, f, l.answer.value, l.readAt))
  {
    AlwaysWitnessed(w, steps);
    var v := Run(w, steps);
    if Hit(v, f).Some? {
      var e := v.entries[f];
      assert EntryWitnessed(w, steps, f, e);
      assert e.expireAt - w.ttl <= Now(v) < e.expireAt - w.ttl + w.ttl;
    }
  }

  // ---- when a revocation or renewal takes effect ----

  /** No load that read the fingerprint as Active is under way. */
  ghost predicate NoneInFlight(w: World, f: Fingerprint) {
    forall l :: l in w.loads && l.fingerprint == f ==> l.answer == None
  }

  /** Neither the cache nor the table answers. */
  ghost predicate Refuses(w: World, f: Fingerprint) {
    Hit(w, f) == None && LoadRow(w.onboarding.db, f) == None
  }

  /** No entry outlives the clock by more than the TTL. */
  ghost predicate EntriesBounded(w: World) {
    forall f :: f in w.entries ==> w.entries[f].expireAt <= Now(w) + w.ttl
  }

  lemma {:induction false} EntriesStayBounded(w: World, steps: seq<Step>)
    requires EntriesBounded(w)
    ensures EntriesBounded(Run(w, steps)) && Run(w, steps).ttl == w.ttl
  {
    if |steps| > 0 {
      EntriesStayBounded(w, steps[..|steps| - 1]);
      ClockAdvances(Run(w, steps[..|steps| - 1]), steps[|steps| - 1]);
    }
  }

  /** The dead fingerprint is not under load, and its entry, if it still has one, ends by `end`. */
  ghost predicate Fading(w: World, f: Fingerprint, end: Time) {
    History.Dead(w.onboarding, f) && NoneInFlight(w, f) && (f in w.entries ==> w.entries[f].expireAt <= end)
  }

  lemma FadingNext(w: World, s: Step, f: Fingerprint, end: Time)
    requires Fading(w, f, end)
    ensures Fading(Do(w, s), f, end)
    ensures f !in w.entries ==> f !in Do(w, s).entries
  {
    if s.Onboard? {
      History.DeadStays(w.onboarding, s.step, f);
    } else if s.LoadEnd? && s.index < |w.loads| {
      assert w.loads[s.index] in w.loads;
    }
  }

  lemma {:induction false} FadingAlways(w: World, steps: seq<Step>, f: Fingerprint, end: Time)
    requires Fading(w, f, end)
    ensures Fading(Run(w, steps), f, end)
    ensures f !in w.entries ==> f !in Run(w, steps).entries
  {
    if |steps| > 0 {
      FadingAlways(w, steps[..|steps| - 1], f, end);
      FadingNext(Run(w, steps[..|steps| - 1]), steps[|steps| - 1], f, end);
    }
  }

  /**
   A fingerprint that is dead in the table, and not under load at that moment, is refused in every
   later state from a TTL later on, and at once in every later state after its entry was removed.
   */
  lemma RefusedOnceFading(w: World, steps: seq<Step>, f: Fingerprint)
    requires History.Dead(w.onboarding, f) && NoneInFlight(w, f) && EntriesBounded(w)
    ensures var v := Run(w, steps);
            && (Now(v) >= Now(w) + w.ttl ==> Refuses(v, f))
            && (f !in w.entries ==> Refuses(v, f))
  {
    FadingAlways(w, steps, f, Now(w) + w.ttl);
  }

  ghost predicate RefusesAfterTtl(w: World, f: Fingerprint) {
    forall steps :: Now(Run(w, steps)) >= Now(w) + w.ttl ==> Refuses(Run(w, steps), f)
  }

  /** A load that read the old row can end as late as it likes, and answers then for another TTL. */
  lemma LateLoad(w: World, f: Fingerprint) returns (steps: seq<Step>)
    requires w.ttl > 0 && !NoneInFlight(w, f)
    requires forall l :: l in w.loads ==> l.readAt <= Now(w)
    ensures Now(Run(w, steps)) >= Now(w) + w.ttl && Hit(Run(w, steps), f).Some?
  {
    var l :| l in w.loads && l.fingerprint == f && l.answer != None;
    var k :| 0 <= k < |w.loads| && w.loads[k] == l;
    steps := WaitThenLoad(w, k);
  }

  lemma WaitThenLoad(w: World, k: nat) returns (steps: seq<Step>)
    requires w.ttl > 0 && k < |w.loads| && w.loads[k].answer.Some? && w.loads[k].readAt <= Now(w)
    ensures Now(Run(w, steps)) == Now(w) + w.ttl && Hit(Run(w, steps), w.loads[k].fingerprint) == w.loads[k].answer
  {
    var end := Now(w) + w.ttl;
    var tick := Onboard(History.Tick(end));
    var v := Do(w, tick);
    JustTime(w, end);
    LoadEndsLate(w, v, k);
    RunOne(w, [], tick);
    RunOne(w, [] + [tick], LoadEnd(k, end));
    steps := [] + [tick] + [LoadEnd(k, end)];
    assert Run(w, steps) == Do(v, LoadEnd(k, end));
  }

  lemma JustTime(w: World, end: Time)
    requires Now(w) <= end
    ensures var v := Do(w, Onboard(History.Tick(end)));
            v.loads == w.loads && v.entries == w.entries && v.ttl == w.ttl && Now(v) == end
  {
  }

  lemma LoadEndsLate(w: World, v: World, k: nat)
    requires w.ttl > 0 && k < |w.loads| && w.loads[k].answer.Some? && w.loads[k].readAt <= Now(w)
    requires v.loads == w.loads && v.ttl == w.ttl && Now(v) == Now(w) + w.ttl
    ensures var after := Do(v, LoadEnd(k, Now(v)));
            Now(after) == Now(v) && Hit(after, w.loads[k].fingerprint) == w.loads[k].answer
  {
  }

  /**
   In every state that a run from an empty cache reaches, a fingerprint that is dead in the table is refused from a
   TTL later on if and only if no load that read it as Active is under way; and where the cache has no entry for it
   any more, it is refused at once under the same condition.
   */
  lemma RefusedWithinTtl(w: World, before: seq<Step>, f: Fingerprint)
    requires w.entries == map[] && w.loads == [] && w.ttl > 0
    requires History.Dead(Run(w, before).onboarding, f)
    ensures var v := Run(w, before);
            && (RefusesAfterTtl(v, f) <==> NoneInFlight(v, f))
            && (f !in v.entries ==> (RefusesForever(v, f) <==> NoneInFlight(v, f)))
  {
    var v := Run(w, before);
    EntriesStayBounded(w, before);
    AlwaysWitnessed(w, before);
    if NoneInFlight(v, f) {
      forall steps
        ensures Now(Run(v, steps)) >= Now(v) + v.ttl ==> Refuses(Run(v, steps), f)
        ensures f !in v.entries ==> Refuses(Run(v, steps), f)
      {
        RefusedOnceFading(v, steps, f);
      }
    } else {
      var steps := LateLoad(v, f);
      assert !Refuses(Run(v, steps), f);
    }
  }

  ghost predicate RefusesForever(w: World, f: Fingerprint) {
    forall steps :: Refuses(Run(w, steps), f)
  }

  /**
   The documentation promises that a revocation works from the moment its event arrives. That holds
   exactly when no load that read the old row is still under way: such a load puts the entry back.
   */
  lemma EventIsFinalIffNoneInFlight(w: World, f: Fingerprint, kind: EventType)
    requires History.Dead(w.onboarding, f) && kind in {RevokedEvent, SuspendedEvent, RenewedEvent} && w.ttl > 0
    requires forall l :: l in w.loads ==> l.readAt <= Now(w)
    ensures RefusesForever(Do(w, Event(kind, f)), f) <==> NoneInFlight(w, f)
  {
    var u := Do(w, Event(kind, f));
    if NoneInFlight(w, f) {
      forall steps ensures Refuses(Run(u, steps), f) {
        FadingAlways(u, steps, f, Now(u));
      }
    } else {
      var l :| l in w.loads && l.fingerprint == f && l.answer != None;
      var k :| 0 <= k < |u.loads| && u.loads[k] == l;
      var late := [LoadEnd(k, Now(w))];
      assert late[..0] == [];
      assert Run(u, late) == Do(u, LoadEnd(k, Now(w)));
      assert Hit(Run(u, late), f) == l.answer;
      assert !Refuses(Run(u, late), f);
    }
  }

  /** The race in which an event comes too early: a node, a load of its certificate, and its revocation. */
  function Race(node: History.Step): seq<Step>
    requires node.Bootstrap?
  {
    [Onboard(History.CreateToken(node.token, node.gateway, "plain", 1, 1))] + [Onboard(node)]
    + [LoadBegin(node.fingerprint)] + [Onboard(History.Revoke(node.node))]
  }

  /** That race is a run from empty tables, so a certificate can be dead and still under load. */
  lemma DeadAndUnderLoad(w: World, node: History.Step)
    requires History.Init(w.onboarding) && w.entries == map[] && w.loads == [] && node.Bootstrap?
    ensures var v := Run(w, Race(node));
            History.Dead(v.onboarding, node.fingerprint) && !NoneInFlight(v, node.fingerprint)
  {
    var f := node.fingerprint;
    var create := Onboard(History.CreateToken(node.token, node.gateway, "plain", 1, 1));
    var a := Do(w, create);
    assert a.onboarding.db == EMPTY.(tokens := map[node.token := NewToken(node.gateway, "plain", 1, Now(w) + 1)]);
    var b := Do(a, Onboard(node));
    Bootstrapped(a.onboarding, node);
    assert History.IsServedBy(b.onboarding.db, f, node.identity);
    var c := Do(b, LoadBegin(f));
    assert c.loads[0].answer.Some?;
    var d := Do(c, Onboard(History.Revoke(node.node)));
    RunOne(w, [], create);
    assert [] + [create] == [create];
    RunOne(w, [create], Onboard(node));
    RunOne(w, [create] + [Onboard(node)], LoadBegin(f));
    RunOne(w, [create] + [Onboard(node)] + [LoadBegin(f)], Onboard(History.Revoke(node.node)));
    assert d.loads[0] in d.loads;
    assert d.onboarding.issues[0].fingerprint == f;
  }

  lemma Bootstrapped(w: History.World, s: History.Step)
    requires s.Bootstrap? && w.issues == []
    requires w.db == EMPTY.(tokens := map[s.token := NewToken(s.gateway, "plain", 1, w.clock + 1)])
    ensures var v := History.Do(w, s);
            && v.db.identities == map[s.identity :=
                 IdentityRow(s.node, s.gateway, s.serial, s.fingerprint, Active, w.clock + w.validity)]
            && v.db.nodes == map[s.node := NodeRow(s.gateway, NodeActive)]
            && |v.issues| == 1 && v.issues[0].fingerprint == s.fingerprint
  {
  }

  // ---- the cache object ----

  class Cache {
    var entries: map<Fingerprint, CachedIdentity>
    const ttl: int

    constructor (ttl: int)
      ensures entries == map[] && this.ttl == if ttl == 0 then 30 else ttl
    {
      this.entries := map[];
      this.ttl := if ttl == 0 then 30 else ttl;
    }

    /**
     `row` is what the table answers if it is asked, `fault` whether asking fails, and `later` the
     clock taken for the expiry. Returns None for an identity that is unknown or not Active.
     */
    method Lookup(f: Fingerprint, now: Time, row: Answer, fault: bool, later: Time) returns (r: Result<Answer, Error>)
      modifies this`entries
      ensures f in old(entries) && now < old(entries)[f].expireAt ==>
                r == Ok(Some((old(entries)[f].node, old(entries)[f].gateway))) && entries == old(entries)
      ensures !(f in old(entries) && now < old(entries)[f].expireAt) ==>
                if fault then r == Err(Internal) && entries == old(entries)
                else r == Ok(row) && entries == Loaded(old(entries), f, row, later + ttl)
      ensures !(f in old(entries) && now < old(entries)[f].expireAt) && !fault ==>
                && (row == None ==> entries == old(entries) - {f})
                && (row.Some? ==> entries == old(entries)[f := CachedIdentity(row.value.0, row.value.1, later + ttl)])
    {
      if f in entries && now < entries[f].expireAt {
        return Ok(Some((entries[f].node, entries[f].gateway)));
      }
      if fault {
        return Err(Internal);
      }
      if row == None {
        entries := entries - {f};
        return Ok(None);
      }
      entries := entries[f := CachedIdentity(row.value.0, row.value.1, later + ttl)];
      return Ok(row);
    }

    method HandleIdentityEvent(kind: EventType, f: Fingerprint)
      modifies this`entries
      ensures entries == if Removes(kind) then old(entries) - {f} else old(entries)
      ensures kind in {RevokedEvent, SuspendedEvent, RenewedEvent} ==>
                && f !in entries
                && forall k :: k != f ==>
                     (k in entries <==> k in old(entries)) && (k in entries ==> entries[k] == old(entries)[k])
      ensures kind == OtherEvent ==> entries == old(entries)
    {
      if kind == RevokedEvent || kind == SuspendedEvent {
        entries := entries - {f};
      } else if kind == RenewedEvent {
        entries := entries - {f};
      }
    }

    method Invalidate(f: Fingerprint)
      modifies this`entries
      ensures entries == old(entries) - {f}
    {
      entries := entries - {f};
    }

    /** The syncer's refresh: deletes key by key. */
    method RefreshIdentities()
      modifies this`entries
      ensures entries == map[]
    {
      while entries != map[]
        decreases |entries|
      {
        var k :| k in entries;
        entries := entries - {k};
      }
    }
  }
}
