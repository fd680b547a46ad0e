/**
 * The session store (auth.go): a map with expiry times and a background collector, shown
 * to answer like a store that never collects.
 */
module Sessions {
  import opened Options

  datatype Session = Session(token: string, username: string, isAdmin: bool, csrfToken: string, expiresAt: int)

  type Store = map<string, Session>

  predicate Expired(s: Session, now: int) {
    now > s.expiresAt
  }

  /** The store that never collects: expiry is only checked on lookup. */
  function Lookup(store: Store, token: string, now: int): Option<Session> {
    if token !in store || Expired(store[token], now) then None else Some(store[token])
  }

  /** The real store agrees with the reference, but for sessions expired by `collectedAt`. */
  ghost predicate Tracks(sessions: Store, reference: Store, collectedAt: int) {
    && (forall t :: t in sessions ==> t in reference && sessions[t] == reference[t])
    && (forall t :: t in reference && t !in sessions ==> Expired(reference[t], collectedAt))
  }

  class SessionStore {
    var sessions: Store
    const ttl: int
    /** The same history without the collector, and the latest time the collector used. */
    ghost var reference: Store
    ghost var collectedAt: int

    ghost predicate Valid()
      reads this
    {
      Tracks(sessions, reference, collectedAt)
    }

    constructor (ttl: int, now: int)
      ensures Valid() && sessions == map[] && this.ttl == ttl && collectedAt == now
    {
      sessions, reference, this.ttl, collectedAt := map[], map[], ttl, now;
    }

    /** A fresh random token; the expiry is computed before the lock is taken. */
    method Create(token: string, csrfToken: string, username: string, isAdmin: bool, now: int) returns (s: Session)
      requires Valid()
      modifies this`sessions, this`reference
      ensures Valid()
      ensures s == Session(token, username, isAdmin, csrfToken, now + ttl)
      ensures sessions == old(sessions)[token := s] && reference == old(reference)[token := s]
    {
      s := Session(token, username, isAdmin, csrfToken, now + ttl);
      sessions := sessions[token := s];
      reference := reference[token := s];
    }

    /** The expiry check uses a clock read after the lookup, so after any finished collection. */
    method Get(token: string, now: int) returns (r: Option<Session>)
      requires Valid() && collectedAt <= now
      ensures r == if token in reference && now <= reference[token].expiresAt then Some(reference[token]) else None
    {
      if token !in sessions || Expired(sessions[token], now) {
        return None;
      }
      return Some(sessions[token]);
    }

    method Delete(token: string)
      requires Valid()
      modifies this`sessions, this`reference
      ensures Valid()
      ensures sessions == old(sessions) - {token} && reference == old(reference) - {token}
    {
      sessions := sessions - {token};
      reference := reference - {token};
    }

    /** One tick of the collector: exactly the expired sessions go. */
    method Collect(now: int)
      requires Valid() && collectedAt <= now
      modifies this`sessions, this`collectedAt
      ensures Valid() && collectedAt == now
      ensures forall t :: t in sessions <==> t in old(sessions) && now <= old(sessions)[t].expiresAt
      ensures forall t :: t in sessions ==> sessions[t] == old(sessions)[t]
    {
      var keys := sessions.Keys;
      while keys != {}
        invariant keys <= old(sessions).Keys && sessions.Keys <= old(sessions).Keys
        invariant forall t :: t in sessions ==> sessions[t] == old(sessions)[t]
        invariant forall t :: t in old(sessions) && t in keys ==> t in sessions
        invariant forall t :: t in old(sessions) && t !in keys ==> (t in sessions <==> !Expired(old(sessions)[t], now))
      {
        var k :| k in keys;
        keys := keys - {k};
        if Expired(sessions[k], now) {
          sessions := sessions - {k};
        }
      }
      collectedAt := now;
    }
  }

  // ---- Whole histories -------------------------------------------------------

  /** The steps of the goroutines; a Get is its lookup, checked against a later clock. */
  datatype Event =
    | Create(session: Session)
    | Get(token: string, now: int)
    | Delete(token: string)
    | Collect(now: int)

  function Step(store: Store, e: Event): Store {
    match e
    case Create(s) => store[s.token := s]
    case Get(_, _) => store
    case Delete(t) => store - {t}
    case Collect(now) => map t | t in store && !Expired(store[t], now) :: store[t]
  }

  function StepNoCollect(store: Store, e: Event): Store {
    if e.Collect? then store else Step(store, e)
  }

  function Run(store: Store, es: seq<Event>): Store {
    if es == [] then store else Step(Run(store, es[..|es| - 1]), es[|es| - 1])
  }

  function RunNoCollect(store: Store, es: seq<Event>): Store {
    if es == [] then store else StepNoCollect(RunNoCollect(store, es[..|es| - 1]), es[|es| - 1])
  }

  /** Clocks: no collection that finished before a Get's lookup used a later time than it. */
  predicate ClocksOk(es: seq<Event>) {
    forall i, j :: 0 <= i < j < |es| && es[i].Collect? && es[j].Get? ==> es[i].now <= es[j].now
  }

  /** Created tokens are fresh: no earlier event created them. */
  predicate FreshTokens(es: seq<Event>) {
    forall i, j :: 0 <= i < j < |es| && es[i].Create? && es[j].Create? ==> es[i].session.token != es[j].session.token
  }

  predicate ExpiredAtSomeCollection(s: Session, es: seq<Event>) {
    exists i :: 0 <= i < |es| && es[i].Collect? && Expired(s, es[i].now)
  }

  /** The stores agree, but for sessions that had expired at some collection so far. */
  ghost predicate Agree(s: Store, r: Store, es: seq<Event>) {
    && (forall t :: t in s ==> t in r && s[t] == r[t])
    && (forall t :: t in r && t !in s ==> ExpiredAtSomeCollection(r[t], es))
  }

  lemma {:induction false} AgreeStep(s: Store, r: Store, es: seq<Event>, e: Event)
    requires Agree(s, r, es)
    ensures Agree(Step(s, e), StepNoCollect(r, e), es + [e])
  {
    var s', r' := Step(s, e), StepNoCollect(r, e);
    forall t | t in r' && t !in s'
      ensures ExpiredAtSomeCollection(r'[t], es + [e])
    {
      if t in r && t !in s {
        assert r'[t] == r[t];
        var i :| 0 <= i < |es| && es[i].Collect? && Expired(r[t], es[i].now);
        assert (es + [e])[i] == es[i];
      } else {
        assert (es + [e])[|es|] == e;
      }
    }
  }

  /** The collector removes expired sessions only. */
  lemma {:induction false} CollectorOnlyRemovesExpired(es: seq<Event>)
    ensures Agree(Run(map[], es), RunNoCollect(map[], es), es)
  {
    if es != [] {
      var front, e := es[..|es| - 1], es[|es| - 1];
      CollectorOnlyRemovesExpired(front);
      AgreeStep(Run(map[], front), RunNoCollect(map[], front), front, e);
      assert front + [e] == es;
    }
  }

  /** In any interleaving every Get answers as if nothing were ever collected. */
  lemma {:induction false} CollectorInvisible(es: seq<Event>, k: nat)
    requires ClocksOk(es) && k < |es| && es[k].Get?
    ensures Lookup(Run(map[], es[..k]), es[k].token, es[k].now) == Lookup(RunNoCollect(map[], es[..k]), es[k].token, es[k].now)
  {
    var front := es[..k];
    CollectorOnlyRemovesExpired(front);
    var s, r := Run(map[], front), RunNoCollect(map[], front);
    var t := es[k].token;
    if t in r && t !in s {
      assert ExpiredAtSomeCollection(r[t], front);
      var i :| 0 <= i < |front| && front[i].Collect? && Expired(r[t], front[i].now);
      assert es[i] == front[i];
      assert es[i].now <= es[k].now;
    }
  }

  /** With fresh tokens, a session that was not deleted is found until it expires. */
  lemma {:induction false} SessionLives(es: seq<Event>, i: nat)
    requires FreshTokens(es) && i < |es| && es[i].Create?
    requires forall j :: i < j < |es| ==> es[j] != Delete(es[i].session.token)
    ensures var t := es[i].session.token;
            t in RunNoCollect(map[], es) && RunNoCollect(map[], es)[t] == es[i].session
  {
    var front, e := es[..|es| - 1], es[|es| - 1];
    if i < |es| - 1 {
      SessionLives(front, i);
      assert front[i] == es[i];
    }
  }

  predicate CollectedBefore(es: seq<Event>, now: int) {
    forall k :: 0 <= k < |es| && es[k].Collect? ==> es[k].now <= now
  }

  /**
   * A session created at some time and not deleted since is found exactly up to its lifetime
   * after that time, that instant included, whenever the collector ran.
   */
  lemma {:induction false} FoundUntilExpiry(es: seq<Event>, i: nat, created: int, ttl: int, now: int)
    requires FreshTokens(es) && CollectedBefore(es, now) && i < |es| && es[i].Create?
    requires es[i].session.expiresAt == created + ttl
    requires forall j :: i < j < |es| ==> es[j] != Delete(es[i].session.token)
    ensures Lookup(Run(map[], es), es[i].session.token, now) ==
            if now <= created + ttl then Some(es[i].session) else None
  {
    SessionLives(es, i);
    CollectorOnlyRemovesExpired(es);
    var s, r, t := Run(map[], es), RunNoCollect(map[], es), es[i].session.token;
    if t !in s {
      assert ExpiredAtSomeCollection(r[t], es);
      var k :| 0 <= k < |es| && es[k].Collect? && Expired(r[t], es[k].now);
      assert es[k].now <= now;
    }
  }
}
