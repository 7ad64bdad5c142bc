/**
 * Per-user usage counters (`_analytics`): a record per user id, created zeroed on first
 * sight, whose query, LLM-query, upload and session counters are bumped by the endpoints.
 * The ISO timestamps are the parameter `now`.
 */
module Analytics {

  /** One user's record. */
  datatype Profile = Profile(userId: string, firstSeen: string, lastSeen: string,
                             queries: nat, llmQueries: nat, uploads: nat, sessions: nat)

  /** The record `ensure_user` creates: every counter 0, first and last seen `now`. */
  function Fresh(uid: string, now: string): Profile {
    Profile(uid, now, now, 0, 0, 0, 0)
  }

  /** The record `ensure_user` returns: the stored one, or a fresh one. */
  function Lookup(users: map<string, Profile>, uid: string, now: string): Profile {
    if uid in users then users[uid] else Fresh(uid, now)
  }

  /** The kinds of event the endpoints record. */
  datatype Event = Session | Query(llmUsed: bool) | Upload

  /** A record after one event at time `now`: its own counter (and `llm_queries` for an LLM query) goes up. */
  function Bump(p: Profile, e: Event, now: string): Profile {
    match e
    case Session => p.(sessions := p.sessions + 1, lastSeen := now)
    case Query(llm) => p.(queries := p.queries + 1, llmQueries := p.llmQueries + (if llm then 1 else 0), lastSeen := now)
    case Upload => p.(uploads := p.uploads + 1, lastSeen := now)
  }

  /** All records after user `uid` causes event `e`. */
  function Record(users: map<string, Profile>, uid: string, e: Event, now: string): map<string, Profile> {
    users[uid := Bump(Lookup(users, uid, now), e, now)]
  }

  /** Every record is filed under its own user id and counts no more LLM queries than queries. */
  predicate Consistent(users: map<string, Profile>) {
    forall u :: u in users ==> users[u].userId == u && users[u].llmQueries <= users[u].queries
  }

  class Tracker {
    /** `_analytics` */
    var users: map<string, Profile>

    constructor ()
      ensures users == map[]
    {
      users := map[];
    }

    /** `ensure_user`: creates a zeroed record for an unknown user; a known one is left as it is. */
    method EnsureUser(uid: string, now: string) returns (p: Profile)
      modifies this
      ensures p == Lookup(old(users), uid, now)
      ensures users == old(users)[uid := p]
      ensures uid in old(users) ==> users == old(users)
    {
      if uid !in users {
        users := users[uid := Fresh(uid, now)];
      }
      p := users[uid];
    }

    /** `record_session` */
    method RecordSession(uid: string, now: string)
      modifies this
      ensures users == Record(old(users), uid, Session, now)
    {
      var u := EnsureUser(uid, now);
      u := u.(sessions := u.sessions + 1);
      u := u.(lastSeen := now);
      users := users[uid := u];
    }

    /** `record_query` */
    method RecordQuery(uid: string, llmUsed: bool, now: string)
      modifies this
      ensures users == Record(old(users), uid, Query(llmUsed), now)
    {
      var u := EnsureUser(uid, now);
      u := u.(queries := u.queries + 1);
      if llmUsed {
        u := u.(llmQueries := u.llmQueries + 1);
      }
      u := u.(lastSeen := now);
      users := users[uid := u];
    }

    /** `record_upload` */
    method RecordUpload(uid: string, now: string)
      modifies this
      ensures users == Record(old(users), uid, Upload, now)
    {
      var u := EnsureUser(uid, now);
      u := u.(uploads := u.uploads + 1);
      u := u.(lastSeen := now);
      users := users[uid := u];
    }

    /** `get_profile`: the user's record, created zeroed if the user was unknown. */
    method GetProfile(uid: string, now: string) returns (p: Profile)
      modifies this
      ensures p == Lookup(old(users), uid, now)
      ensures uid !in old(users) ==> p == Fresh(uid, now)
      ensures users == old(users)[uid := p]
    {
      p := EnsureUser(uid, now);
    }
  }

  // ---------------------------------------------------------------------------
  // Properties of the counters
  // ---------------------------------------------------------------------------

  /**
   * An event bumps exactly the counter of its kind, and `llm_queries` only for a query that
   * used the LLM; every other counter of the user, and every other user's record, is left
   * as it was, and a new user's record starts from zero.
   */
  lemma RecordCounts(users: map<string, Profile>, uid: string, e: Event, now: string)
    ensures var before, after := Lookup(users, uid, now), Record(users, uid, e, now)[uid];
      && after.queries == before.queries + (if e.Query? then 1 else 0)
      && after.llmQueries == before.llmQueries + (if e.Query? && e.llmUsed then 1 else 0)
      && after.uploads == before.uploads + (if e.Upload? then 1 else 0)
      && after.sessions == before.sessions + (if e.Session? then 1 else 0)
      && after.userId == before.userId && after.firstSeen == before.firstSeen && after.lastSeen == now
    ensures uid !in users ==> Lookup(users, uid, now) == Profile(uid, now, now, 0, 0, 0, 0)
    ensures Record(users, uid, e, now).Keys == users.Keys + {uid}
    ensures forall v :: v in users && v != uid ==> Record(users, uid, e, now)[v] == users[v]
  {
  }

  /** Recording any event keeps the records consistent. */
  lemma RecordConsistent(users: map<string, Profile>, uid: string, e: Event, now: string)
    requires Consistent(users)
    ensures Consistent(Record(users, uid, e, now))
  {
  }

  /** Looking a user up twice creates nothing the second time. */
  lemma EnsureIdempotent(users: map<string, Profile>, uid: string, now: string, later: string)
    ensures var p := Lookup(users, uid, now);
      Lookup(users[uid := p], uid, later) == p
  {
  }

  /** Over a run of events, a user's query counter counts exactly the query events. */
  function Replay(users: map<string, Profile>, uid: string, es: seq<Event>, now: string): map<string, Profile>
    decreases |es|
  {
    if es == [] then users
    else Record(Replay(users, uid, es[..|es| - 1], now), uid, es[|es| - 1], now)
  }

  function CountQueries(es: seq<Event>): nat
    decreases |es|
  {
    if es == [] then 0 else CountQueries(es[..|es| - 1]) + (if es[|es| - 1].Query? then 1 else 0)
  }

  function CountLlm(es: seq<Event>): nat
    decreases |es|
  {
    if es == [] then 0 else CountLlm(es[..|es| - 1]) + (if es[|es| - 1].Query? && es[|es| - 1].llmUsed then 1 else 0)
  }

  lemma {:induction false} ReplayCounts(uid: string, es: seq<Event>, now: string)
    requires es != []
    ensures var p := Replay(map[], uid, es, now)[uid];
      && p.queries == CountQueries(es)
      && p.llmQueries == CountLlm(es)
      && p.llmQueries <= p.queries
    decreases |es|
  {
    var init := es[..|es| - 1];
    if init != [] {
      ReplayCounts(uid, init, now);
    }
    assert uid in Replay(map[], uid, es, now);
    CountLlmBelow(es);
  }

  lemma {:induction false} CountLlmBelow(es: seq<Event>)
    ensures CountLlm(es) <= CountQueries(es)
    decreases |es|
  {
    if es != [] {
      CountLlmBelow(es[..|es| - 1]);
    }
  }
}
