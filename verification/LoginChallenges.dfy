/** Telegram login challenges: the store with its time to live, and the session
    service that completes them. Times are whole seconds of one clock that never
    runs backwards. */
module LoginChallenges {
  import opened Common
  import opened Text

  datatype Challenge = Challenge(
    operator: string,
    phone: string,
    session: string,
    codeHash: string,
    expiresAt: int,
    requiresPassword: bool)

  /** The store: what it holds, and the history of it. `swept` is the time of the
      last clean-up, `created` the challenges as they were made, `deleted` the ids
      given to `delete`, `marked` those found by `mark_password_required`. */
  datatype Store = Store(
    items: map<string, Challenge>,
    now: int,
    swept: int,
    created: map<string, Challenge>,
    deleted: set<string>,
    marked: set<string>)

  function EmptyStore(now: int): Store {
    Store(map[], now, now, map[], {}, {})
  }

  /** `max(ttl_seconds, 60)` */
  function TimeToLive(configured: int): int {
    if configured < 60 then 60 else configured
  }

  datatype Operation =
    | Create(id: string, operator: string, phone: string, session: string, codeHash: string, expiresFrom: int, at: int)
    | Get(id: string, at: int)
    | MarkPasswordRequired(id: string, at: int)
    | UpdateSession(id: string, session: string, at: int)
    | Delete(id: string)

  function TimeOf(op: Operation, now: int): int {
    if op.Delete? then now else op.at
  }

  /** The clock does not run backwards and ids are never reused. */
  predicate IsPossible(s: Store, op: Operation) {
    && TimeOf(op, s.now) >= s.now
    && (op.Create? ==> op.id !in s.created && s.now <= op.expiresFrom <= op.at)
  }

  /** `_cleanup_locked` */
  function Swept(s: Store, at: int): Store {
    s.(items := map k | k in s.items && s.items[k].expiresAt > at :: s.items[k], now := at, swept := at)
  }

  function NewChallenge(op: Operation, ttl: int): Challenge
    requires op.Create?
  {
    Challenge(op.operator, op.phone, op.session, op.codeHash, op.expiresFrom + ttl, false)
  }

  function Apply(s: Store, op: Operation, ttl: int): Store {
    match op
    case Create(id, _, _, _, _, _, at) =>
      var swept := Swept(s, at);
      swept.(items := swept.items[id := NewChallenge(op, ttl)], created := s.created[id := NewChallenge(op, ttl)])
    case Get(id, at) => Swept(s, at)
    case MarkPasswordRequired(id, at) =>
      var swept := Swept(s, at);
      if id in swept.items then
        swept.(items := swept.items[id := swept.items[id].(requiresPassword := true)], marked := s.marked + {id})
      else swept
    case UpdateSession(id, session, at) =>
      var swept := Swept(s, at);
      if id in swept.items then swept.(items := swept.items[id := swept.items[id].(session := session)]) else swept
    case Delete(id) => s.(items := s.items - {id}, deleted := s.deleted + ({id} * s.created.Keys))
  }

  predicate IsLive(s: Store, id: string, at: int) {
    id in s.created && id !in s.deleted && s.created[id].expiresAt > at
  }

  /** What the store holds is what its history says: nothing is lost before it
      expires, and only the session and the password flag of a challenge change. */
  ghost predicate IsFaithful(s: Store) {
    && s.swept <= s.now
    && (forall id | id in s.items ::
          && id in s.created && id !in s.deleted
          && s.items[id].expiresAt == s.created[id].expiresAt
          && s.items[id].operator == s.created[id].operator
          && s.items[id].phone == s.created[id].phone
          && s.items[id].codeHash == s.created[id].codeHash
          && (s.items[id].requiresPassword <==> id in s.marked))
    && (forall id | id in s.created && id !in s.deleted && s.created[id].expiresAt > s.swept :: id in s.items)
    && s.marked <= s.created.Keys && s.deleted <= s.created.Keys
  }

  lemma ApplyKeepsFaithful(s: Store, op: Operation, ttl: int)
    requires IsFaithful(s) && IsPossible(s, op)
    ensures IsFaithful(Apply(s, op, ttl))
  {
  }

  ghost predicate IsHistory(now: int, ops: seq<Operation>, ttl: int)
    decreases |ops|
  {
    ops == [] || (IsHistory(now, ops[..|ops| - 1], ttl) && IsPossible(After(now, ops[..|ops| - 1], ttl), ops[|ops| - 1]))
  }

  function After(now: int, ops: seq<Operation>, ttl: int): Store {
    if ops == [] then EmptyStore(now) else Apply(After(now, ops[..|ops| - 1], ttl), ops[|ops| - 1], ttl)
  }

  lemma {:induction false} HistoryIsFaithful(now: int, ops: seq<Operation>, ttl: int)
    requires IsHistory(now, ops, ttl)
    ensures IsFaithful(After(now, ops, ttl))
    decreases |ops|
  {
    if ops != [] {
      HistoryIsFaithful(now, ops[..|ops| - 1], ttl);
      ApplyKeepsFaithful(After(now, ops[..|ops| - 1], ttl), ops[|ops| - 1], ttl);
    }
  }

  /** After any history `get` finds a challenge exactly when it was created, not
      deleted and has not expired; it then has the expiry it was created with, and
      asks for a password exactly when it was marked. */
  lemma GetFindsExactlyTheLive(now: int, ops: seq<Operation>, ttl: int, id: string, at: int)
    requires IsHistory(now, ops, ttl) && at >= After(now, ops, ttl).now
    ensures var s := After(now, ops, ttl);
      var found := Find(Apply(s, Get(id, at), ttl).items, id);
      && (found.Some? <==> IsLive(s, id, at))
      && (found.Some? ==>
            && found.value.expiresAt == s.created[id].expiresAt
            && found.value.operator == s.created[id].operator
            && (found.value.requiresPassword <==> id in s.marked))
  {
    HistoryIsFaithful(now, ops, ttl);
  }

  /** No operation moves an expiry or takes a password requirement back. */
  lemma NothingIsExtendedOrCleared(now: int, ops: seq<Operation>, ttl: int, op: Operation, id: string)
    requires IsHistory(now, ops, ttl) && IsPossible(After(now, ops, ttl), op)
    ensures var before := After(now, ops, ttl).items;
      var after := Apply(After(now, ops, ttl), op, ttl).items;
      id in before && id in after ==>
        after[id].expiresAt == before[id].expiresAt && (before[id].requiresPassword ==> after[id].requiresPassword)
  {
    HistoryIsFaithful(now, ops, ttl);
  }

  /** `InMemoryTelegramLoginChallengeStore` */
  class ChallengeStore {
    const ttl: int
    var items: map<string, Challenge>
    var now: int
    ghost var swept: int
    ghost var created: map<string, Challenge>
    ghost var deleted: set<string>
    ghost var marked: set<string>

    constructor (configured: int, now: int)
      ensures ttl == TimeToLive(configured) && State() == EmptyStore(now)
      ensures IsFaithful(State())
    {
      ttl := TimeToLive(configured);
      items := map[];
      this.now := now;
      swept := now;
      created := map[];
      deleted := {};
      marked := {};
    }

    ghost function State(): Store
      reads this
    {
      Store(items, now, swept, created, deleted, marked)
    }

    /** Reading the clock, which may have moved on. */
    method ReadClock() returns (t: int)
      modifies this`now
      ensures t == now >= old(now)
    {
      t := *;
      if t < now {
        t := now;
      }
      now := t;
    }

    method Cleanup()
      modifies this`items, this`now, this`swept
      ensures now >= old(now) && State() == Swept(old(State()), now)
    {
      var t := ReadClock();
      items := map k | k in items && items[k].expiresAt > t :: items[k];
      swept := t;
    }

    /** The id is a fresh random one. */
    method CreateChallenge(id: string, operator: string, phone: string, session: string, codeHash: string)
      returns (challenge: Challenge, ghost op: Operation)
      requires IsFaithful(State()) && id !in created
      modifies this
      ensures op.Create? && op.id == id && op.operator == operator && op.phone == phone && op.session == session
        && op.codeHash == codeHash && op.at == now && IsPossible(old(State()), op)
      ensures State() == Apply(old(State()), op, ttl) && IsFaithful(State())
      ensures challenge == NewChallenge(op, ttl)
    {
      var t := ReadClock();
      challenge := Challenge(operator, phone, session, codeHash, t + ttl, false);
      Cleanup();
      op := Create(id, operator, phone, session, codeHash, t, now);
      items := items[id := challenge];
      created := created[id := challenge];
      ApplyKeepsFaithful(old(State()), op, ttl);
    }

    method GetChallenge(id: string) returns (found: Option<Challenge>)
      requires IsFaithful(State())
      modifies this
      ensures now >= old(now) && State() == Apply(old(State()), Get(id, now), ttl) && IsFaithful(State())
      ensures found.Some? <==> IsLive(old(State()), id, now)
      ensures found == Find(items, id)
    {
      Cleanup();
      ApplyKeepsFaithful(old(State()), Get(id, now), ttl);
      found := Find(items, id);
    }

    method MarkRequired(id: string) returns (found: Option<Challenge>)
      requires IsFaithful(State())
      modifies this
      ensures now >= old(now) && State() == Apply(old(State()), MarkPasswordRequired(id, now), ttl) && IsFaithful(State())
      ensures found.Some? <==> IsLive(old(State()), id, now)
    {
      Cleanup();
      ApplyKeepsFaithful(old(State()), MarkPasswordRequired(id, now), ttl);
      found := None;
      if id in items {
        items := items[id := items[id].(requiresPassword := true)];
        marked := marked + {id};
        found := Some(items[id]);
      }
    }

    method UpdateSessionString(id: string, session: string) returns (found: Option<Challenge>)
      requires IsFaithful(State())
      modifies this
      ensures now >= old(now) && State() == Apply(old(State()), UpdateSession(id, session, now), ttl) && IsFaithful(State())
      ensures found.Some? <==> IsLive(old(State()), id, now)
    {
      Cleanup();
      ApplyKeepsFaithful(old(State()), UpdateSession(id, session, now), ttl);
      found := None;
      if id in items {
        items := items[id := items[id].(session := session)];
        found := Some(items[id]);
      }
    }

    method DeleteChallenge(id: string) returns (existed: bool)
      requires IsFaithful(State())
      modifies this
      ensures State() == Apply(old(State()), Delete(id), ttl) && IsFaithful(State())
      ensures existed <==> id in old(items)
    {
      ApplyKeepsFaithful(old(State()), Delete(id), ttl);
      existed := id in items;
      items := items - {id};
      deleted := deleted + ({id} * created.Keys);
    }
  }

  // ----- the session service

  datatype Session = Session(text: string, readable: bool)

  /** One session record written: for which challenge, if any, and how. */
  datatype Write = Write(challenge: Option<string>, operator: string, byPassword: bool)

  datatype World = World(store: Store, sessions: map<string, Session>, writes: seq<Write>, answered: set<string>)

  /** Every write that completes a challenge is the only one for it, is made for the
      operator who created it, deletes it, and is made by password only after its
      code was answered with a demand for one. */
  ghost predicate WritesAreEarned(w: World) {
    && IsFaithful(w.store)
    && w.store.marked <= w.answered
    && (forall i, j | 0 <= i < j < |w.writes| && w.writes[i].challenge.Some? :: w.writes[i].challenge != w.writes[j].challenge)
    && (forall write | write in w.writes && write.challenge.Some? ::
          var id := write.challenge.value;
          && id in w.store.created && id in w.store.deleted
          && write.operator == w.store.created[id].operator
          && (write.byPassword ==> id in w.answered))
  }

  /** The history only grows, and only `operator`'s own session may change. */
  ghost predicate Advances(before: World, after: World, operator: string) {
    && before.store.now <= after.store.now
    && (forall id | id in before.store.created :: id in after.store.created && after.store.created[id] == before.store.created[id])
    && before.store.deleted <= after.store.deleted
    && before.writes <= after.writes
    && |after.writes| <= |before.writes| + 1
    && (|after.writes| > |before.writes| ==> after.writes[|before.writes|].operator == operator)
    && OnlyAt(before.sessions, after.sessions, operator)
  }

  datatype Answer = SignedIn(session: string) | PasswordDemanded | CodeSent(phone: string, session: string, codeHash: string) | Failed

  datatype Reply = Connected | NeedsPassword(id: string) | NeedsCode(id: string) | Refused

  class SessionService {
    const store: ChallengeStore
    const allowed: set<string>
    var sessions: map<string, Session>
    ghost var writes: seq<Write>
    ghost var answered: set<string>

    constructor (store: ChallengeStore, allowed: set<string>)
      requires store.State() == EmptyStore(store.now)
      ensures this.store == store && this.allowed == allowed && WritesAreEarned(Now())
    {
      this.store := store;
      this.allowed := allowed;
      sessions := map[];
      writes := [];
      answered := {};
    }

    ghost function Now(): World
      reads this, store
    {
      World(store.State(), sessions, writes, answered)
    }

    /** `_authorize` */
    predicate IsAuthorized(operator: string) {
      allowed == {} || operator in allowed
    }

    /** A call to Telegram: any answer, after any time. */
    method Ask() returns (answer: Answer)
      requires IsFaithful(store.State())
      modifies store`now
      ensures store.now >= old(store.now) && store.State() == old(store.State()).(now := store.now)
      ensures IsFaithful(store.State())
    {
      var t := store.ReadClock();
      answer := *;
    }

    /** `_get_challenge` */
    method OwnChallenge(operator: string, id: string) returns (found: Option<Challenge>)
      requires IsFaithful(store.State())
      modifies store
      ensures store.now >= old(store.now) && store.State() == Apply(old(store.State()), Get(id, store.now), store.ttl)
      ensures IsFaithful(store.State())
      ensures found.Some? <==> IsLive(old(store.State()), id, store.now) && store.created[id].operator == operator
      ensures found.Some? ==> found.value.requiresPassword ==> id in store.marked
    {
      var challenge := store.GetChallenge(id);
      found := if challenge.Some? && challenge.value.operator == operator then challenge else None;
    }

    /** `_persist_session_record`; the repository may fail. */
    method Persist(operator: string, session: string, ghost write: Write) returns (saved: bool)
      modifies this`sessions, this`writes
      ensures OnlyAt(old(sessions), sessions, operator)
      ensures saved ==> Find(sessions, operator) == Some(Session(session, true))
      ensures !saved ==> sessions == old(sessions)
      ensures writes == if saved then old(writes) + [write] else old(writes)
    {
      saved := *;
      if saved {
        sessions := sessions[operator := Session(session, true)];
        writes := writes + [write];
      }
    }

    /** The end of `start_connection` when a code was sent. */
    method Challenged(operator: string, id: string, sentTo: string, session: string, codeHash: string) returns (r: Reply)
      requires WritesAreEarned(Now()) && id !in store.created
      modifies store
      ensures WritesAreEarned(Now()) && Advances(old(Now()), Now(), operator)
      ensures store.deleted == old(store.deleted)
      ensures r == (if codeHash == "" then Refused else NeedsCode(id))
      ensures r == Refused ==> store.created == old(store.created)
      ensures r.NeedsCode? ==> id in store.created && id !in store.deleted
      ensures r.NeedsCode? ==> store.created[id].operator == operator && !store.created[id].requiresPassword
      ensures r.NeedsCode? ==> store.created[id].expiresAt >= old(store.now) + store.ttl
    {
      if codeHash == "" {
        return Refused;
      }
      ghost var op;
      var challenge;
      challenge, op := store.CreateChallenge(id, operator, sentTo, session, codeHash);
      r := NeedsCode(id);
    }

    /** `start_connection` */
    method StartConnection(operator: string, phone: string, id: string) returns (r: Reply)
      requires WritesAreEarned(Now()) && id !in store.created
      modifies this, store
      ensures WritesAreEarned(Now()) && Advances(old(Now()), Now(), operator)
      ensures store.deleted == old(store.deleted) && answered == old(answered)
      ensures r.NeedsCode? ==> r.id == id && id in store.created && id !in store.deleted
      ensures r.NeedsCode? ==> store.created[id].operator == operator && !store.created[id].requiresPassword
      ensures r.NeedsCode? ==> store.created[id].expiresAt >= old(store.now) + store.ttl
      ensures !r.NeedsCode? ==> store.created == old(store.created)
      ensures r == Connected ==> writes == old(writes) + [Write(None, operator, false)]
      ensures r != Connected ==> writes == old(writes)
      ensures (Strip(phone) == "" || (operator in old(sessions) && old(sessions)[operator].readable)) ==>
        r == Refused && sessions == old(sessions)
    {
      if !IsAuthorized(operator) || Strip(phone) == "" {
        return Refused;
      }
      if operator in sessions {
        if sessions[operator].readable {
          return Refused;
        }
        sessions := sessions - {operator};
      }
      var answer := Ask();
      match answer {
        case SignedIn(session) =>
          var saved := Persist(operator, session, Write(None, operator, false));
          r := if saved then Connected else Refused;
        case CodeSent(sentTo, session, codeHash) =>
          r := Challenged(operator, id, sentTo, session, codeHash);
        case _ =>
          r := Refused;
      }
    }

    /** The end both completions share: the challenge goes, the session is written. */
    method Complete(operator: string, id: string, session: string, byPassword: bool) returns (r: Reply)
      requires WritesAreEarned(Now())
      requires id in store.created && id !in store.deleted && store.created[id].operator == operator
      requires byPassword ==> id in answered
      modifies this`sessions, this`writes, store
      ensures WritesAreEarned(Now()) && Advances(old(Now()), Now(), operator)
      ensures r == Connected || r == Refused
      ensures id in store.deleted && store.created == old(store.created)
      ensures r == Connected ==> writes == old(writes) + [Write(Some(id), operator, byPassword)]
      ensures r == Connected ==> Find(sessions, operator) == Some(Session(session, true))
      ensures r == Refused ==> writes == old(writes) && sessions == old(sessions)
    {
      var existed := store.DeleteChallenge(id);
      var saved := Persist(operator, session, Write(Some(id), operator, byPassword));
      r := if saved then Connected else Refused;
    }

    /** `complete_code` */
    method CompleteCode(operator: string, id: string) returns (r: Reply)
      requires WritesAreEarned(Now())
      modifies this, store
      ensures WritesAreEarned(Now()) && Advances(old(Now()), Now(), operator)
      ensures store.created == old(store.created)
      ensures r != Refused ==> id in store.created && id !in old(store.deleted) && store.created[id].operator == operator
      ensures r == Connected ==> id in store.deleted && writes == old(writes) + [Write(Some(id), operator, false)]
      ensures r != Connected ==> writes == old(writes)
      ensures r.NeedsPassword? ==> r.id == id && id in answered
      ensures r.NeedsPassword? ==> id in store.marked || store.created[id].expiresAt <= store.now
    {
      var found := None;
      if IsAuthorized(operator) {
        found := OwnChallenge(operator, id);
      }
      if found == None {
        return Refused;
      }
      var answer := Ask();
      match answer {
        case PasswordDemanded =>
          answered := answered + {id};
          var marked := store.MarkRequired(id);
          r := NeedsPassword(id);
        case SignedIn(session) =>
          r := Complete(operator, id, session, false);
        case _ =>
          r := Refused;
      }
    }

    /** `complete_password` */
    method CompletePassword(operator: string, id: string) returns (r: Reply)
      requires WritesAreEarned(Now())
      modifies this, store
      ensures WritesAreEarned(Now()) && Advances(old(Now()), Now(), operator)
      ensures store.created == old(store.created) && answered == old(answered)
      ensures r == Connected || r == Refused
      ensures r == Connected ==> id in old(store.marked) && id in store.deleted
      ensures r == Connected ==> writes == old(writes) + [Write(Some(id), operator, true)]
      ensures r == Refused ==> writes == old(writes) && sessions == old(sessions)
    {
      var found := None;
      if IsAuthorized(operator) {
        found := OwnChallenge(operator, id);
      }
      if found == None || !found.value.requiresPassword {
        return Refused;
      }
      var answer := Ask();
      match answer {
        case SignedIn(session) =>
          r := Complete(operator, id, session, true);
        case _ =>
          r := Refused;
      }
    }

    /** `disconnect` of the stored session. */
    method Disconnect(operator: string) returns (disconnected: bool)
      requires WritesAreEarned(Now())
      modifies this`sessions
      ensures WritesAreEarned(Now()) && Advances(old(Now()), Now(), operator)
      ensures disconnected ==> operator in old(sessions) && operator !in sessions
      ensures !disconnected ==> sessions == old(sessions)
    {
      disconnected := IsAuthorized(operator) && operator in sessions;
      if disconnected {
        sessions := sessions - {operator};
      }
    }
  }
}
