/** Sessions by client id, as values: who has which session, and which one is in use. */
module SessionManagers {
  import opened Common
  import opened Topics
  import opened Packets
  import opened Tries

  type ProcessorId = nat

  /** A session keeps the handler it was created with; its sender is the connection of the
      processor that has it, if any. */
  datatype SessionState = SessionState(
    clientId: Str,
    handler: ProcessorId,
    sender: Option<ProcessorId>,
    subscriptions: seq<TopicFilter>)

  datatype Entry = Entry(session: Session, inUse: bool)

  /** `entries` are the sessions the manager knows; `sessions` also holds removed ones, which a
      subscription tree may still refer to. */
  datatype Registry = Registry(entries: map<Str, Entry>, sessions: map<Session, SessionState>, next: Session)

  const NULL: Session := 0
  const EMPTY_REGISTRY := Registry(map[], map[], NULL + 1)

  function WithSender(sessions: map<Session, SessionState>, x: Session, sender: Option<ProcessorId>)
    : map<Session, SessionState>
  {
    if x in sessions then sessions[x := sessions[x].(sender := sender)] else sessions
  }

  /** `getSession`: the session of the client, created if it is new, unless it is in use. */
  function Acquire(r: Registry, clientId: Str, p: ProcessorId): (Registry, Option<Session>, ErrorCode) {
    if clientId in r.entries then
      var x := r.entries[clientId].session;
      if r.entries[clientId].inUse then (r, None, SessionInUse)
      else
        (r.(entries := r.entries[clientId := Entry(x, true)], sessions := WithSender(r.sessions, x, Some(p))),
         Some(x), NoError)
    else
      var x := r.next;
      (Registry(r.entries[clientId := Entry(x, true)], r.sessions[x := SessionState(clientId, p, Some(p), [])], x + 1),
       Some(x), NoError)
  }

  /** `returnSession`: looks the session up by its client id. */
  function Release(r: Registry, session: Option<Session>): (Registry, ErrorCode) {
    if session.None? || session.value !in r.sessions then (r, SessionNotFound)
    else
      var clientId := r.sessions[session.value].clientId;
      if clientId !in r.entries then (r, SessionNotFound)
      else
        var x := r.entries[clientId].session;
        (r.(entries := r.entries[clientId := Entry(x, false)], sessions := WithSender(r.sessions, x, None)), NoError)
  }

  function Erase(r: Registry, clientId: Str): (Registry, ErrorCode) {
    if clientId !in r.entries then (r, SessionNotFound)
    else if r.entries[clientId].inUse then (r, SessionInUse)
    else (r.(entries := r.entries - {clientId}), NoError)
  }

  /** The first half of `Session::addSubscriptions`: what is new is stored. */
  function Store(r: Registry, x: Session, filters: seq<TopicFilter>): Registry
    requires x in r.sessions
  {
    var st := r.sessions[x];
    r.(sessions := r.sessions[x := st.(subscriptions := st.subscriptions + SetDifference(filters, st.subscriptions))])
  }

  // ---------------------------------------------------------------- the objects

  class ClientSession {
    ghost const id: Session
    const clientId: Str
    const handler: ProcessorId
    var sender: Option<ProcessorId>
    var subscriptions: seq<TopicFilter>

    function State(): SessionState
      reads this
    {
      SessionState(clientId, handler, sender, subscriptions)
    }

    constructor (ghost id: Session, clientId: Str, handler: ProcessorId)
      ensures this.id == id && State() == SessionState(clientId, handler, None, [])
    {
      this.id, this.clientId, this.handler := id, clientId, handler;
      sender, subscriptions := None, [];
    }

    method SetSender(sender: Option<ProcessorId>)
      modifies this
      ensures State() == old(State()).(sender := sender)
    {
      this.sender := sender;
    }

    /** The stored filters become the union of old and new ones; `news` goes to the handler. */
    method AddSubscriptions(filters: seq<TopicFilter>) returns (news: seq<TopicFilter>)
      modifies this
      ensures news == SetDifference(filters, old(subscriptions))
      ensures State() == old(State()).(subscriptions := old(subscriptions) + news)
      ensures forall f :: f in subscriptions <==> f in old(subscriptions) || f in filters
    {
      news := FindDifference(filters, subscriptions);
      DifferenceCompletesUnion(filters, subscriptions);
      subscriptions := subscriptions + news;
    }
  }

  datatype SessionWrapper = SessionWrapper(session: ClientSession, inUse: bool)

  class SessionManager {
    var sessions: map<Str, SessionWrapper>
    ghost var all: map<Session, ClientSession>   // with those that have been removed
    ghost var next: Session

    ghost predicate Valid()
      reads this
    {
      && (forall c | c in sessions :: Known(sessions[c].session))
      && (forall x | x in all :: all[x].id == x < next)
      && next > NULL
    }

    ghost predicate Known(s: ClientSession)
      reads this
    {
      s.id in all && all[s.id] == s
    }

    ghost function Objects(): set<ClientSession>
      reads this
    {
      set x | x in all :: all[x]
    }

    ghost function Entries(): map<Str, Entry>
      reads this
    {
      map c | c in sessions :: Entry(sessions[c].session.id, sessions[c].inUse)
    }

    ghost function States(): map<Session, SessionState>
      reads this, Objects()
    {
      map x | x in all :: all[x].State()
    }

    ghost function Value(): Registry
      reads this, Objects()
    {
      Registry(Entries(), States(), next)
    }

    constructor ()
      ensures Valid() && Value() == EMPTY_REGISTRY
    {
      sessions, all, next := map[], map[], NULL + 1;
    }

    /** Changes the sender and the use of a known session. */
    method Mark(clientId: Str, sender: Option<ProcessorId>, inUse: bool)
      requires Valid() && clientId in sessions
      modifies this, sessions[clientId].session
      ensures Valid() && all == old(all) && next == old(next)
      ensures var x := old(sessions[clientId].session.id);
        Entries() == old(Entries())[clientId := Entry(x, inUse)] && States() == WithSender(old(States()), x, sender)
    {
      var session := sessions[clientId].session;
      session.SetSender(sender);
      assert States() == WithSender(old(States()), session.id, sender);
      sessions := sessions[clientId := SessionWrapper(session, inUse)];
      assert States() == WithSender(old(States()), session.id, sender);
    }

    /** Creates the session of a new client. */
    method Create(clientId: Str, p: ProcessorId) returns (session: ClientSession)
      requires Valid() && clientId !in sessions
      modifies this
      ensures Valid() && Known(session) && session.id == old(next) && next == old(next) + 1
      ensures Entries() == old(Entries())[clientId := Entry(session.id, true)]
      ensures States() == old(States())[session.id := SessionState(clientId, p, Some(p), [])]
    {
      session := new ClientSession(next, clientId, p);
      session.SetSender(Some(p));
      all := all[next := session];
      next := next + 1;
      sessions := sessions[clientId := SessionWrapper(session, true)];
    }

    method GetSession(clientId: Str, p: ProcessorId) returns (session: ClientSession?, ec: ErrorCode)
      requires Valid()
      modifies this, if clientId in sessions then {sessions[clientId].session} else {}
      ensures Valid() && Value() == Acquire(old(Value()), clientId, p).0
      ensures ec == Acquire(old(Value()), clientId, p).2
      ensures session == null <==> Acquire(old(Value()), clientId, p).1 == None
      ensures session != null ==> Known(session) && Acquire(old(Value()), clientId, p).1 == Some(session.id)
    {
      if clientId in sessions {
        session := sessions[clientId].session;
        if sessions[clientId].inUse {
          return null, SessionInUse;
        }
        Mark(clientId, Some(p), true);
        return session, NoError;
      }
      session := Create(clientId, p);
      ec := NoError;
    }

    method ReturnSession(session: ClientSession?) returns (ec: ErrorCode)
      requires Valid() && (session != null ==> Known(session))
      modifies this
      modifies if session != null && session.clientId in sessions then {sessions[session.clientId].session} else {}
      ensures Valid()
      ensures Value() == Release(old(Value()), if session == null then None else Some(session.id)).0
      ensures ec == Release(old(Value()), if session == null then None else Some(session.id)).1
    {
      if session == null || session.clientId !in sessions {
        return SessionNotFound;
      }
      Mark(session.clientId, None, false);
      ec := NoError;
    }

    method RemoveSession(clientId: Str) returns (ec: ErrorCode)
      requires Valid()
      modifies this
      ensures Valid() && Value() == Erase(old(Value()), clientId).0 && ec == Erase(old(Value()), clientId).1
    {
      if clientId !in sessions {
        return SessionNotFound;
      }
      if sessions[clientId].inUse {
        return SessionInUse;
      }
      sessions := sessions - {clientId};
      ec := NoError;
    }
  }
}
