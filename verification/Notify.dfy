/** Which routes a republished snapshot affects, and how far one route's change reaches. */
module Notify {
  import opened Bytes
  import opened Api
  import opened Resolver
  import opened Registry

  /** None stands for the empty message of a nil error. */
  function ErrorMessage(e: Option<ResolveError>): Option<ErrorText> {
    match e
    case None => None
    case Some(err) => Some(err.text)
  }

  predicate DecisionChanged(before: Decision, now: Decision) {
    || before.database != now.database
    || before.accepted != now.accepted
    || before.conflictsWith != now.conflictsWith
    || before.endpoint != now.endpoint
    || ErrorMessage(before.resolveErr) != ErrorMessage(now.resolveErr)
  }

  type Decisions = map<NamespacedName, Decision>

  /** The routes notifyChanged picks. */
  function Affected(previous: Decisions, current: Decisions): set<NamespacedName> {
    set k | k in current && (k !in previous || DecisionChanged(previous[k], current[k]))
  }

  /** The bounded channel to the status reconciler. */
  class EventChannel {
    const capacity: nat
    var events: seq<NamespacedName>

    ghost predicate Valid()
      reads this
    {
      |events| <= capacity
    }

    constructor (capacity: nat)
      ensures Valid() && events == [] && this.capacity == capacity
    {
      this.capacity := capacity;
      events := [];
    }

    /** notify: a send that gives up when the channel is full. */
    method TrySend(k: NamespacedName) returns (sent: bool)
      requires Valid()
      modifies this
      ensures Valid()
      ensures sent <==> |old(events)| < capacity
      ensures events == if sent then old(events) + [k] else old(events)
    {
      sent := |events| < capacity;
      if sent { events := events + [k]; }
    }
  }

  ghost predicate NoRepeats(ks: seq<NamespacedName>) {
    forall i, j :: 0 <= i < j < |ks| ==> ks[i] != ks[j]
  }

  /** Sends one event per affected route, in no particular order; only a full channel loses any. */
  method NotifyChanged(ch: EventChannel, previous: Decisions, current: Decisions)
    returns (ghost sent: seq<NamespacedName>, ghost dropped: set<NamespacedName>)
    requires ch.Valid()
    modifies ch
    ensures ch.Valid() && ch.events == old(ch.events) + sent && NoRepeats(sent)
    ensures (set k | k in sent) !! dropped && (set k | k in sent) + dropped == Affected(previous, current)
    ensures dropped != {} ==> |ch.events| == ch.capacity
  {
    sent, dropped := [], {};
    var todo := current.Keys;
    while todo != {}
      invariant ch.Valid() && ch.events == old(ch.events) + sent && NoRepeats(sent)
      invariant todo <= current.Keys
      invariant (set k | k in sent) !! dropped && (set k | k in sent) + dropped == Affected(previous, current) - todo
      invariant dropped != {} ==> |ch.events| == ch.capacity
      decreases todo
    {
      var key :| key in todo;
      todo := todo - {key};
      if key in previous && !DecisionChanged(previous[key], current[key]) { continue; }
      assert key !in sent && key in Affected(previous, current);
      var ok := ch.TrySend(key);
      if ok { sent := sent + [key]; } else { dropped := dropped + {key}; }
    }
  }

  ghost function Claimants(routes: set<PostgresRoute>, database: Str): set<PostgresRoute> {
    set r | r in routes && r.EffectiveDatabase() == database
  }

  // ---- Change locality ----

  /** Adding x moves no winner of another name, and no winner of its own name unless x itself wins. */
  lemma WinnersBesides(routes: set<PostgresRoute>, x: PostgresRoute, w: PostgresRoute)
    requires UniqueKeys(routes + {x}) && x !in routes && w in routes
    requires w.EffectiveDatabase() != x.EffectiveDatabase() || !IsWinner(routes + {x}, x)
    ensures IsWinner(routes + {x}, w) <==> IsWinner(routes, w)
  {
    var all := routes + {x};
    if IsWinner(routes, w) && w.EffectiveDatabase() == x.EffectiveDatabase() {
      var v := WinnerExists(all, x);
      assert IsWinner(routes, v);
      WinnerIsUnique(routes, v, w);
    }
  }

  lemma SameDecision(routes: set<PostgresRoute>, x: PostgresRoute, rv: Answers, r: PostgresRoute, d: Decision)
    requires UniqueKeys(routes + {x}) && x !in routes && r in routes
    requires r.EffectiveDatabase() != x.EffectiveDatabase() || !IsWinner(routes + {x}, x)
    requires DecidesRoute(routes, rv, r, d)
    ensures DecidesRoute(routes + {x}, rv, r, d)
  {
    WinnersBesides(routes, x, r);
    if !IsWinner(routes, r) {
      var w :| Beats(routes, w, r) && d == RejectedDecision(r, w.Key());
      WinnersBesides(routes, x, w);
      assert Beats(routes + {x}, w, r);
    }
  }

  lemma DisplacedDecision(routes: set<PostgresRoute>, x: PostgresRoute, rv: Answers, r: PostgresRoute, d: Decision,
      e: Decision)
    requires UniqueKeys(routes + {x}) && x !in routes && r in routes
    requires r.EffectiveDatabase() == x.EffectiveDatabase() && IsWinner(routes + {x}, x)
    requires DecidesRoute(routes, rv, r, d) && DecidesRoute(routes + {x}, rv, r, e)
    ensures DecisionChanged(d, e) && DecisionChanged(e, d)
  {
    var all := routes + {x};
    WinnerIsUniqueKey(all, x, r);
    var w :| Beats(all, w, r) && e == RejectedDecision(r, w.Key());
    WinnerIsUnique(all, w, x);
    if !IsWinner(routes, r) {
      var v :| Beats(routes, v, r) && d == RejectedDecision(r, v.Key());
      assert v in all && x in all && v != x;
    }
  }

  lemma ServedBesides(routes: set<PostgresRoute>, x: PostgresRoute, rv: Answers, w: PostgresRoute, d: Str, route: Route)
    requires UniqueKeys(routes + {x}) && x !in routes && d != x.EffectiveDatabase()
    ensures Serves(routes, rv, w, d, route) <==> Serves(routes + {x}, rv, w, d, route)
  {
    if w in routes && w.EffectiveDatabase() == d { WinnersBesides(routes, x, w); }
  }

  /** Adding or deleting x changes no table entry for another database name. */
  lemma TableIsLocal(routes: set<PostgresRoute>, x: PostgresRoute, rv: Answers, s: Snapshot, t: Snapshot, d: Str)
    requires UniqueKeys(routes + {x}) && x !in routes && d != x.EffectiveDatabase()
    requires MeetsSpec(routes, rv, s) && MeetsSpec(routes + {x}, rv, t)
    ensures (d in s.table <==> d in t.table) && (d in s.table ==> s.table[d] == t.table[d])
  {
    if d in s.table {
      var w :| Serves(routes, rv, w, d, s.table[d]);
      ServedBesides(routes, x, rv, w, d, s.table[d]);
      EntryIsAnswer(routes + {x}, rv, t.table, w);
    }
    if d in t.table {
      var w :| Serves(routes + {x}, rv, w, d, t.table[d]);
      ServedBesides(routes, x, rv, w, d, t.table[d]);
      EntryIsAnswer(routes, rv, s.table, w);
    }
  }

  lemma EntryIsAnswer(routes: set<PostgresRoute>, rv: Answers, table: map<Str, Route>, w: PostgresRoute)
    requires ServesAll(routes, rv, table) && IsWinner(routes, w) && rv(w).Ok?
    ensures w.EffectiveDatabase() in table && table[w.EffectiveDatabase()] == rv(w).value
  {
    var d := w.EffectiveDatabase();
    var v :| Serves(routes, rv, v, d, table[d]);
    WinnerIsUnique(routes, v, w);
  }

  /** Which decisions adding or deleting x moves, route by route. */
  lemma DecisionIsLocal(routes: set<PostgresRoute>, x: PostgresRoute, rv: Answers, s: Snapshot, t: Snapshot,
      r: PostgresRoute)
    requires UniqueKeys(routes + {x}) && x !in routes && r in routes
    requires MeetsSpec(routes, rv, s) && MeetsSpec(routes + {x}, rv, t)
    ensures r.Key() in s.decisions && r.Key() in t.decisions && r.Key() != x.Key()
    ensures if r.EffectiveDatabase() == x.EffectiveDatabase() && IsWinner(routes + {x}, x)
      then DecisionChanged(s.decisions[r.Key()], t.decisions[r.Key()])
        && DecisionChanged(t.decisions[r.Key()], s.decisions[r.Key()])
      else s.decisions[r.Key()] == t.decisions[r.Key()]
  {
    var all, k := routes + {x}, r.Key();
    assert r in all && x in all;
    assert DecidesRoute(routes, rv, r, s.decisions[k]);
    assert DecidesRoute(all, rv, r, t.decisions[k]);
    if r.EffectiveDatabase() == x.EffectiveDatabase() && IsWinner(all, x) {
      DisplacedDecision(routes, x, rv, r, s.decisions[k], t.decisions[k]);
    } else {
      SameDecision(routes, x, rv, r, s.decisions[k]);
      DecisionIsDetermined(all, rv, r, s.decisions[k], t.decisions[k]);
    }
  }

  /** Exactly whom an added route disturbs: every claimant of the name it takes, else only itself. */
  lemma AddedRouteAffects(routes: set<PostgresRoute>, x: PostgresRoute, rv: Answers, s: Snapshot, t: Snapshot)
    requires UniqueKeys(routes + {x}) && x !in routes
    requires MeetsSpec(routes, rv, s) && MeetsSpec(routes + {x}, rv, t)
    ensures Affected(s.decisions, t.decisions) ==
      if IsWinner(routes + {x}, x) then Keys(Claimants(routes + {x}, x.EffectiveDatabase())) else {x.Key()}
  {
    var all := routes + {x};
    var d := x.EffectiveDatabase();
    var expected := if IsWinner(all, x) then Keys(Claimants(all, d)) else {x.Key()};
    KeyOf(routes, x);
    assert x in Claimants(all, d);
    forall k ensures k in Affected(s.decisions, t.decisions) <==> k in expected {
      if k == x.Key() {
        assert x in all;
      } else if k in Keys(routes) {
        var r :| r in routes && r.Key() == k;
        DecisionIsLocal(routes, x, rv, s, t, r);
        ClaimantKey(all, d, r);
      } else {
        NotAClaimant(routes, x, d, k);
      }
    }
  }

  /** Exactly whom a deleted route disturbs: the remaining claimants when it held the name, else nobody. */
  lemma DeletedRouteAffects(routes: set<PostgresRoute>, x: PostgresRoute, rv: Answers, s: Snapshot, t: Snapshot)
    requires UniqueKeys(routes + {x}) && x !in routes
    requires MeetsSpec(routes, rv, s) && MeetsSpec(routes + {x}, rv, t)
    ensures Affected(t.decisions, s.decisions) ==
      if IsWinner(routes + {x}, x) then Keys(Claimants(routes, x.EffectiveDatabase())) else {}
  {
    var all := routes + {x};
    var d := x.EffectiveDatabase();
    var expected := if IsWinner(all, x) then Keys(Claimants(routes, d)) else {};
    assert UniqueKeys(routes);
    forall k ensures k in Affected(t.decisions, s.decisions) <==> k in expected {
      if k in Keys(routes) {
        var r :| r in routes && r.Key() == k;
        DecisionIsLocal(routes, x, rv, s, t, r);
        ClaimantKey(routes, d, r);
      }
    }
  }

  lemma KeyOf(routes: set<PostgresRoute>, x: PostgresRoute)
    requires UniqueKeys(routes + {x}) && x !in routes
    ensures x.Key() !in Keys(routes)
  {
    forall r | r in routes ensures r.Key() != x.Key() { assert r in routes + {x} && x in routes + {x}; }
  }

  lemma ClaimantKey(routes: set<PostgresRoute>, d: Str, r: PostgresRoute)
    requires UniqueKeys(routes) && r in routes
    ensures r.Key() in Keys(Claimants(routes, d)) <==> r.EffectiveDatabase() == d
  {
    if r.EffectiveDatabase() == d { assert r in Claimants(routes, d); }
  }

  lemma NotAClaimant(routes: set<PostgresRoute>, x: PostgresRoute, d: Str, k: NamespacedName)
    requires k != x.Key() && k !in Keys(routes)
    ensures k !in Keys(routes + {x}) && k !in Keys(Claimants(routes + {x}, d))
  {
    forall r | r in routes + {x} ensures r.Key() != k {}
  }
}
