/** Any number of processors serving connections, as labelled steps. A step is what happens
    between two points where another thread can come in: the session manager's lock, the
    publication of a new subscription tree, and every copy of a message that is sent. */
module Brokers {
  import opened Common
  import opened Topics
  import opened Packets
  import opened Tries
  import opened SharedCursors
  import opened SessionManagers
  import opened SubscriptionTrees
  import Serializers

  datatype Status = Start | Connected | Disconnected

  /** Where a processor is inside `processPacket`. */
  datatype Task =
    | Idle
    | Assigning(session: Option<Session>)   // CONNECT, before _currentSession is set
    | Returning                             // DISCONNECT, before _currentSession is reset
    | Registering(                          // SUBSCRIBE, before the tree is written
        id: Id,
        filters: seq<TopicFilter>,
        news: seq<TopicFilter>)
    | Publishing(                           // PUBLISH, before the remaining copies
        message: ControlPacket,
        todo: set<Session>)

  /** `live` is the packet sender; `reading` says that the read loop still reads. */
  datatype Processor = Processor(
    status: Status,
    current: Option<Session>,
    task: Task,
    live: bool,
    reading: bool,
    destroyed: bool)

  datatype State = State(
    registry: Registry,
    processors: map<ProcessorId, Processor>,
    registered: seq<Subscription>,
    tree: Trie,
    outbox: map<ProcessorId, seq<ControlPacket>>,
    foreign: set<Session>,   // sessions some processor has subscribed through that did not create them
    fault: bool)             // a null session or a destroyed handler has been used

  datatype Label =
    | Receive(p: ProcessorId, packet: ControlPacket)
    | Assign(p: ProcessorId)
    | Reset(p: ProcessorId)
    | Register(p: ProcessorId, early: nat)   // `early` filters are registered before a reset elsewhere
    | Send(p: ProcessorId, session: Session)
    | Expire(p: ProcessorId)
    | Destroy(p: ProcessorId)
    | Remove(clientId: Str)

  const NEW_PROCESSOR := Processor(Start, None, Idle, true, true, false)

  function Init(processors: set<ProcessorId>): State {
    State(EMPTY_REGISTRY, map p | p in processors :: NEW_PROCESSOR, [], EMPTY, map p | p in processors :: [], {}, false)
  }

  /** The session a processor has, from the moment the manager hands it out until it takes it
      back. */
  function Holding(pr: Processor): Option<Session> {
    if pr.destroyed || pr.task.Returning? then None
    else if pr.task.Assigning? then pr.task.session
    else pr.current
  }

  // ---------------------------------------------------------------- one packet

  /** Why `processPacket` refuses a packet, if it does. */
  function Refusal(pr: Processor, packet: ControlPacket): ErrorCode {
    if !pr.live then NoPacketSender
    else if pr.status == Start && !packet.Connect? then NotConnected
    else if pr.status == Connected && packet.Connect? then DuplicateConnect
    else if pr.status == Disconnected then NotConnected
    else if packet.ConnAck? || packet.PingResp? || packet.SubAck? then ControlPacketNotAllowed
    else NoError
  }

  function Put(s: State, p: ProcessorId, pr: Processor): State {
    s.(processors := s.processors[p := pr])
  }

  function Enqueue(s: State, p: ProcessorId, packet: ControlPacket): State
    requires p in s.outbox
  {
    s.(outbox := s.outbox[p := s.outbox[p] + [packet]])
  }

  function Sending(message: ControlPacket, todo: set<Session>): Task {
    if todo == {} then Idle else Publishing(message, todo)
  }

  function Process(s: State, p: ProcessorId, packet: ControlPacket): State
    requires p in s.processors && p in s.outbox
  {
    var pr := s.processors[p];
    if Refusal(pr, packet) != NoError then Put(s, p, pr.(reading := false))
    else match packet
      case Connect(c) =>
        var (r, session, _) := Acquire(s.registry, c.clientId, p);
        Put(s, p, pr.(status := Connected, task := Assigning(session))).(registry := r)
      case PingReq => Enqueue(s, p, PingResp)
      case Disconnect =>
        Put(s, p, pr.(status := Disconnected, task := Returning)).(registry := Release(s.registry, pr.current).0)
      case Subscribe(id, filters) => ProcessSubscribe(s, p, id, filters)
      case Publish(topic, _, _) =>
        Put(s, p, pr.(task := Sending(packet, TopicMatch(s.tree, Levels(topic)).sessions)))
      case _ => s
  }

  function ProcessSubscribe(s: State, p: ProcessorId, id: Id, filters: seq<TopicFilter>): State
    requires p in s.processors
  {
    var pr := s.processors[p];
    if pr.current.None? || pr.current.value !in s.registry.sessions then s.(fault := true)
    else
      var x := pr.current.value;
      var news := SetDifference(filters, s.registry.sessions[x].subscriptions);
      Put(s, p, pr.(task := Registering(id, filters, news))).(
        registry := Store(s.registry, x, filters),
        foreign := if s.registry.sessions[x].handler == p then s.foreign else s.foreign + {x})
  }

  /** CONNACK accepts the client even when its session is in use; then reading stops. */
  function AssignSession(s: State, p: ProcessorId): State
    requires p in s.processors && p in s.outbox && s.processors[p].task.Assigning?
  {
    var pr := s.processors[p];
    var session := pr.task.session;
    Enqueue(Put(s, p, pr.(current := session, task := Idle, reading := session.Some?)), p, ConnAck(0, 0))
  }

  function QoSLevels(filters: seq<TopicFilter>): (levels: seq<nat>)
    ensures |levels| == |filters| && forall i | 0 <= i < |filters| :: levels[i] == filters[i].qos
  {
    seq(|filters|, i requires 0 <= i < |filters| => filters[i].qos)
  }

  /** The filters are registered for the current session of the processor that created the
      session of `p`, not for the session of `p` itself. It is read again for each filter: when
      that processor is about to reset it, only the first filters may still find it. A handler
      that is destroyed between two filters is the step Destroy before this one: the batch then
      ends in a fault, and what it has put into its own copy of the tree is never published. */
  function Batch(news: seq<TopicFilter>, handler: Processor, early: nat): seq<Subscription> {
    var x := if handler.current.Some? then handler.current.value else NULL;
    var n := if handler.task.Returning? && early < |news| then early else |news|;
    SubscriptionsOf(news[..n], x) + SubscriptionsOf(news[n..], NULL)
  }

  function RegisterFilters(s: State, p: ProcessorId, early: nat): State
    requires p in s.processors && p in s.outbox && s.processors[p].task.Registering?
  {
    var pr := s.processors[p];
    if pr.current.None? || pr.current.value !in s.registry.sessions then s.(fault := true)
    else
      var h := s.registry.sessions[pr.current.value].handler;
      if h !in s.processors || s.processors[h].destroyed then s.(fault := true)
      else
        var subs := Batch(pr.task.news, s.processors[h], early);
        Enqueue(Put(s, p, pr.(task := Idle)), p, SubAck(pr.task.id, QoSLevels(pr.task.filters))).(
          registered := s.registered + subs,
          tree := AddAll(Clone(s.tree), subs))
  }

  function SenderOf(s: State, x: Session): Option<ProcessorId> {
    if x in s.registry.sessions && s.registry.sessions[x].sender.Some?
       && s.registry.sessions[x].sender.value in s.processors
       && s.processors[s.registry.sessions[x].sender.value].live
       && s.registry.sessions[x].sender.value in s.outbox
    then s.registry.sessions[x].sender else None
  }

  function SendCopy(s: State, p: ProcessorId, x: Session): State
    requires p in s.processors && s.processors[p].task.Publishing?
  {
    var pr := s.processors[p];
    var s' := Put(s, p, pr.(task := Sending(pr.task.message, pr.task.todo - {x})));
    if x == NULL then s.(fault := true)
    else if SenderOf(s, x).Some? then Enqueue(s', SenderOf(s, x).value, pr.task.message)
    else s'
  }

  predicate Enabled(s: State, l: Label) {
    && !s.fault
    && match l
       case Receive(p, packet) =>
         && p in s.processors && p in s.outbox && !s.processors[p].destroyed
         && s.processors[p].reading && s.processors[p].task == Idle
       case Assign(p) => p in s.processors && p in s.outbox && s.processors[p].task.Assigning?
       case Reset(p) => p in s.processors && s.processors[p].task.Returning?
       case Register(p, _) => p in s.processors && p in s.outbox && s.processors[p].task.Registering?
       case Send(p, x) => p in s.processors && s.processors[p].task.Publishing? && x in s.processors[p].task.todo
       case Expire(p) => p in s.processors
       case Destroy(p) => p in s.processors && !s.processors[p].destroyed && s.processors[p].task == Idle
       case Remove(_) => true
  }

  function Step(s: State, l: Label): State
    requires Enabled(s, l)
  {
    match l
    case Receive(p, packet) => Process(s, p, packet)
    case Assign(p) => AssignSession(s, p)
    case Reset(p) => Put(s, p, s.processors[p].(current := None, task := Idle, reading := false))
    case Register(p, early) => RegisterFilters(s, p, early)
    case Send(p, x) => SendCopy(s, p, x)
    case Expire(p) => Put(s, p, s.processors[p].(live := false))
    case Destroy(p) =>
      Put(s, p, s.processors[p].(destroyed := true, live := false)).(
        registry := Release(s.registry, s.processors[p].current).0)
    case Remove(c) => s.(registry := Erase(s.registry, c).0)
  }

  ghost predicate CanRun(s: State, labels: seq<Label>)
    decreases labels
  {
    labels == [] || (Enabled(s, labels[0]) && CanRun(Step(s, labels[0]), labels[1..]))
  }

  ghost function Run(s: State, labels: seq<Label>): State
    requires CanRun(s, labels)
    decreases labels
  {
    if labels == [] then s else Run(Step(s, labels[0]), labels[1..])
  }

  // ---------------------------------------------------------------- sessions are exclusive

  predicate HoldingOk(s: State, p: ProcessorId)
    requires p in s.processors
  {
    Holding(s.processors[p]).Some? ==>
      var x := Holding(s.processors[p]).value;
      && x in s.registry.sessions && s.registry.sessions[x].sender == Some(p)
      && s.registry.sessions[x].clientId in s.registry.entries
      && s.registry.entries[s.registry.sessions[x].clientId] == Entry(x, true)
  }

  predicate EntryOk(s: State, c: Str)
    requires c in s.registry.entries
  {
    var e := s.registry.entries[c];
    && e.session in s.registry.sessions && s.registry.sessions[e.session].clientId == c
    && (e.inUse <==> s.registry.sessions[e.session].sender.Some?)
  }

  predicate SessionOk(s: State, x: Session)
    requires x in s.registry.sessions
  {
    var st := s.registry.sessions[x];
    && NULL < x < s.registry.next
    && (st.sender.Some? ==> st.sender.value in s.processors && Holding(s.processors[st.sender.value]) == Some(x))
  }

  /** How status, task and current session go together. */
  predicate ProcessorOk(s: State, p: ProcessorId)
    requires p in s.processors
  {
    var pr := s.processors[p];
    && p in s.outbox
    && (pr.status == Start ==> pr.current.None? && pr.task == Idle)
    && (pr.task.Assigning? ==> pr.status == Connected && pr.current.None?)
    && (pr.task.Returning? ==> pr.status == Disconnected && pr.current.Some?)
    && (pr.task.Registering? || pr.task.Publishing? ==> pr.status == Connected && pr.current.Some?)
    && (pr.task.Publishing? ==> pr.task.message.Publish?)
    && (pr.task == Idle && pr.status == Disconnected ==> pr.current.None?)
    && (pr.task == Idle && pr.status == Connected && pr.reading ==> pr.current.Some?)
    && (pr.destroyed ==> pr.task == Idle)
    && (pr.current.Some? ==> pr.current.value in s.registry.sessions)
  }

  ghost predicate Exclusive(s: State) {
    && (forall p | p in s.processors :: HoldingOk(s, p) && ProcessorOk(s, p))
    && (forall c | c in s.registry.entries :: EntryOk(s, c))
    && (forall x | x in s.registry.sessions :: SessionOk(s, x))
    && s.registry.next > NULL
  }

  /** No processor but `p` changes. */
  predicate OnlyMoves(s: State, s': State, p: ProcessorId) {
    && s'.processors.Keys == s.processors.Keys
    && forall q | q in s.processors && q != p :: s'.processors[q] == s.processors[q]
  }

  /** A step of `p` that leaves the session manager and the holders alone. */
  lemma SameHolders(s: State, s': State, p: ProcessorId)
    requires Exclusive(s) && p in s.processors && s'.registry == s.registry && s'.outbox.Keys == s.outbox.Keys
    requires OnlyMoves(s, s', p)
    requires Holding(s'.processors[p]) == Holding(s.processors[p]) && ProcessorOk(s', p)
    ensures Exclusive(s')
  {
  }

  lemma TaskKeeps(s: State, l: Label)
    requires Exclusive(s) && Enabled(s, l) && (l.Assign? || l.Reset? || l.Expire?)
    ensures Exclusive(Step(s, l))
  {
    assert ProcessorOk(s, l.p);
    SameHolders(s, Step(s, l), l.p);
  }

  lemma RegisterKeeps(s: State, p: ProcessorId, early: nat)
    requires Exclusive(s) && Enabled(s, Register(p, early))
    ensures Exclusive(RegisterFilters(s, p, early))
  {
    assert ProcessorOk(s, p);
    SameHolders(s, RegisterFilters(s, p, early), p);
  }

  lemma SendKeeps(s: State, p: ProcessorId, x: Session)
    requires Exclusive(s) && Enabled(s, Send(p, x))
    ensures Exclusive(SendCopy(s, p, x))
  {
    assert ProcessorOk(s, p);
    SameHolders(s, SendCopy(s, p, x), p);
  }

  lemma PlainKeeps(s: State, p: ProcessorId, packet: ControlPacket)
    requires Exclusive(s) && Enabled(s, Receive(p, packet))
    requires Refusal(s.processors[p], packet) != NoError || packet.PingReq? || packet.Publish?
    ensures Exclusive(Process(s, p, packet))
  {
    assert ProcessorOk(s, p);
    SameHolders(s, Process(s, p, packet), p);
  }

  /** The manager hands session `x` to `p`. */
  lemma HandsOut(s: State, p: ProcessorId, clientId: Str)
    requires Exclusive(s) && p in s.processors && Holding(s.processors[p]).None?
    ensures var (r, session, _) := Acquire(s.registry, clientId, p);
      var s' := Put(s, p, s.processors[p].(status := Connected, task := Assigning(session))).(registry := r);
      ProcessorOk(s', p) ==> Exclusive(s')
  {
    var (r, session, _) := Acquire(s.registry, clientId, p);
    var s' := Put(s, p, s.processors[p].(status := Connected, task := Assigning(session))).(registry := r);
    if ProcessorOk(s', p) {
      forall q | q in s'.processors ensures HoldingOk(s', q) && ProcessorOk(s', q) {
        assert HoldingOk(s, q) && ProcessorOk(s, q);
      }
      forall c | c in s'.registry.entries ensures EntryOk(s', c) {
        assert c in s.registry.entries ==> EntryOk(s, c);
      }
      forall x | x in s'.registry.sessions ensures SessionOk(s', x) {
        assert x in s.registry.sessions ==> SessionOk(s, x);
        assert clientId in s.registry.entries ==> EntryOk(s, clientId);
      }
    }
  }

  lemma ConnectKeeps(s: State, p: ProcessorId, packet: ControlPacket)
    requires Exclusive(s) && Enabled(s, Receive(p, packet)) && packet.Connect?
    requires Refusal(s.processors[p], packet) == NoError
    ensures Exclusive(Process(s, p, packet))
  {
    assert ProcessorOk(s, p);
    HandsOut(s, p, packet.fields.clientId);
  }

  /** The manager takes back the session of a processor that has let go of it. */
  lemma TakesBack(s: State, s': State, p: ProcessorId)
    requires Exclusive(s) && p in s.processors && s.processors[p].task == Idle && !s.processors[p].destroyed
    requires s'.registry == Release(s.registry, s.processors[p].current).0 && s'.outbox == s.outbox
    requires OnlyMoves(s, s', p)
    requires Holding(s'.processors[p]).None? && ProcessorOk(s', p)
    ensures Exclusive(s')
  {
    assert HoldingOk(s, p) && ProcessorOk(s, p);
    forall q | q in s'.processors ensures HoldingOk(s', q) && ProcessorOk(s', q) {
      assert HoldingOk(s, q) && ProcessorOk(s, q);
    }
    forall c | c in s'.registry.entries ensures EntryOk(s', c) {
      assert EntryOk(s, c);
    }
    forall x | x in s'.registry.sessions ensures SessionOk(s', x) {
      assert SessionOk(s, x);
    }
  }

  lemma DisconnectKeeps(s: State, p: ProcessorId, packet: ControlPacket)
    requires Exclusive(s) && Enabled(s, Receive(p, packet)) && packet.Disconnect?
    requires Refusal(s.processors[p], packet) == NoError
    ensures Exclusive(Process(s, p, packet))
  {
    assert HoldingOk(s, p) && ProcessorOk(s, p);
    TakesBack(s, Process(s, p, packet), p);
  }

  lemma DestroyKeeps(s: State, p: ProcessorId)
    requires Exclusive(s) && Enabled(s, Destroy(p))
    ensures Exclusive(Step(s, Destroy(p)))
  {
    assert HoldingOk(s, p) && ProcessorOk(s, p);
    TakesBack(s, Step(s, Destroy(p)), p);
  }

  /** Storing subscriptions changes nothing the session manager looks at. */
  lemma StoreKeeps(s: State, x: Session, filters: seq<TopicFilter>)
    requires Exclusive(s) && x in s.registry.sessions
    ensures Exclusive(s.(registry := Store(s.registry, x, filters)))
  {
  }

  lemma SubscribeKeeps(s: State, p: ProcessorId, packet: ControlPacket)
    requires Exclusive(s) && Enabled(s, Receive(p, packet)) && packet.Subscribe?
    requires Refusal(s.processors[p], packet) == NoError
    ensures Exclusive(Process(s, p, packet))
  {
    assert ProcessorOk(s, p);
    var x := s.processors[p].current.value;
    StoreKeeps(s, x, packet.filters);
    SameHolders(s.(registry := Store(s.registry, x, packet.filters)), Process(s, p, packet), p);
  }

  lemma RemoveKeeps(s: State, c: Str)
    requires Exclusive(s) && Enabled(s, Remove(c))
    ensures Exclusive(Step(s, Remove(c)))
  {
  }

  lemma StepExclusive(s: State, l: Label)
    requires Exclusive(s) && Enabled(s, l)
    ensures Exclusive(Step(s, l))
  {
    match l
    case Receive(p, packet) =>
      if Refusal(s.processors[p], packet) == NoError && packet.Connect? {
        ConnectKeeps(s, p, packet);
      } else if Refusal(s.processors[p], packet) == NoError && packet.Disconnect? {
        DisconnectKeeps(s, p, packet);
      } else if Refusal(s.processors[p], packet) == NoError && packet.Subscribe? {
        SubscribeKeeps(s, p, packet);
      } else {
        PlainKeeps(s, p, packet);
      }
    case Destroy(p) => DestroyKeeps(s, p);
    case Remove(c) => RemoveKeeps(s, c);
    case Register(p, early) => RegisterKeeps(s, p, early);
    case Send(p, x) => SendKeeps(s, p, x);
    case _ => TaskKeeps(s, l);
  }

  /** A processor keeps its session until its own DISCONNECT or its destruction; whatever the
      others do, the session's entry is neither erased nor replaced. */
  lemma OnlyTheHolderLetsGo(s: State, l: Label, p: ProcessorId)
    requires Exclusive(s) && Enabled(s, l) && p in s.processors && Holding(s.processors[p]).Some?
    requires l != Destroy(p) && !(l.Receive? && l.p == p && l.packet.Disconnect?)
    ensures var x := Holding(s.processors[p]).value;
      var s' := Step(s, l);
      && p in s'.processors && Holding(s'.processors[p]) == Some(x)
      && x in s.registry.sessions && x in s'.registry.sessions
      && s'.registry.sessions[x].clientId == s.registry.sessions[x].clientId
      && s.registry.sessions[x].clientId in s'.registry.entries
      && s'.registry.entries[s.registry.sessions[x].clientId] == Entry(x, true)
  {
    assert HoldingOk(s, p) && ProcessorOk(s, p);
    StepExclusive(s, l);
    if l.Receive? {
      ReceiveKeepsHolding(s, l.p, l.packet, p);
    } else {
      KeepsHolding(s, l, p);
    }
    assert HoldingOk(Step(s, l), p);
  }

  predicate HoldsStill(s: State, s': State, p: ProcessorId)
    requires p in s.processors && Holding(s.processors[p]).Some?
  {
    var x := Holding(s.processors[p]).value;
    && p in s'.processors && Holding(s'.processors[p]) == Some(x)
    && x in s.registry.sessions && x in s'.registry.sessions
    && s'.registry.sessions[x].clientId == s.registry.sessions[x].clientId
  }

  lemma KeepsHolding(s: State, l: Label, p: ProcessorId)
    requires Exclusive(s) && Enabled(s, l) && p in s.processors && Holding(s.processors[p]).Some? && !l.Receive?
    requires l != Destroy(p)
    ensures HoldsStill(s, Step(s, l), p)
  {
    assert HoldingOk(s, p) && ProcessorOk(s, p);
  }

  lemma ReceiveKeepsHolding(s: State, q: ProcessorId, packet: ControlPacket, p: ProcessorId)
    requires Exclusive(s) && Enabled(s, Receive(q, packet)) && p in s.processors && Holding(s.processors[p]).Some?
    requires !(q == p && packet.Disconnect?)
    ensures HoldsStill(s, Process(s, q, packet), p)
  {
  }

  /** The CONNECT packets of processor `p` that get through to the session manager. */
  ghost function AcceptedConnects(s: State, labels: seq<Label>, p: ProcessorId): nat
    requires CanRun(s, labels)
    decreases labels
  {
    if labels == [] then 0
    else
      var l := labels[0];
      var accepted := l.Receive? && l.p == p && l.packet.Connect? && Refusal(s.processors[p], l.packet) == NoError;
      (if accepted then 1 else 0) + AcceptedConnects(Step(s, l), labels[1..], p)
  }

  lemma StatusStep(s: State, l: Label, p: ProcessorId)
    requires Enabled(s, l) && p in s.processors
    ensures p in Step(s, l).processors
    ensures s.processors[p].status != Start ==> Step(s, l).processors[p].status != Start
    ensures l.Receive? && l.p == p && l.packet.Connect? && Refusal(s.processors[p], l.packet) == NoError ==>
      s.processors[p].status == Start && Step(s, l).processors[p].status != Start
  {
  }

  /** In every run a processor asks for a session at most once: what it has is never
      overwritten by another CONNECT. */
  lemma {:induction false} ConnectsOnce(s: State, labels: seq<Label>, p: ProcessorId)
    requires CanRun(s, labels) && p in s.processors
    ensures AcceptedConnects(s, labels, p) <= if s.processors[p].status == Start then 1 else 0
    decreases labels
  {
    if labels != [] {
      StatusStep(s, labels[0], p);
      ConnectsOnce(Step(s, labels[0]), labels[1..], p);
    }
  }

  // ---------------------------------------------------------------- subscriptions

  /** The processor that created a session never gets another one. */
  predicate HandlerOk(s: State, x: Session)
    requires x in s.registry.sessions
  {
    var h := s.registry.sessions[x].handler;
    && h in s.processors && s.processors[h].status != Start
    && (s.processors[h].current.Some? ==> s.processors[h].current == Some(x))
    && (s.processors[h].task.Assigning? ==> s.processors[h].task.session == Some(x))
  }

  predicate RegisteringOk(s: State, p: ProcessorId)
    requires p in s.processors
  {
    var pr := s.processors[p];
    pr.task.Registering? && pr.current.Some? && pr.current.value in s.registry.sessions ==>
      pr.current.value in s.foreign || s.registry.sessions[pr.current.value].handler == p
  }

  predicate Pending(s: State, x: Session, f: TopicFilter)
    requires x in s.registry.sessions
  {
    var h := s.registry.sessions[x].handler;
    && h in s.processors && s.processors[h].task.Registering?
    && s.processors[h].current == Some(x) && f in s.processors[h].task.news
  }

  /** Every stored filter is in the tree, or its processor is just about to put it there. */
  predicate SubscriptionsOk(s: State, x: Session)
    requires x in s.registry.sessions
  {
    x in s.foreign || forall f | f in s.registry.sessions[x].subscriptions ::
      Subscription(Levels(f.filter), x) in s.registered || Pending(s, x, f)
  }

  ghost predicate TreeOk(s: State) {
    NoEmptyPath(s.registered) && s.tree == AddAll(EMPTY, s.registered)
  }

  predicate NullOk(s: State) {
    && (s.fault ==> s.foreign != {})
    && (forall sub | sub in s.registered && sub.session == NULL :: s.foreign != {})
    && (forall p | p in s.processors && s.processors[p].task.Publishing? && NULL in s.processors[p].task.todo ::
          s.foreign != {})
  }

  ghost predicate Bound(s: State) {
    && (forall x | x in s.registry.sessions :: HandlerOk(s, x) && SubscriptionsOk(s, x))
    && (forall p | p in s.processors :: RegisteringOk(s, p))
    && TreeOk(s) && NullOk(s)
  }

  /** The session states agree in what subscriptions depend on. */
  predicate SameSubscriptions(s: State, s': State) {
    && s'.registry.sessions.Keys == s.registry.sessions.Keys
    && (forall x | x in s.registry.sessions ::
          && s'.registry.sessions[x].handler == s.registry.sessions[x].handler
          && s'.registry.sessions[x].subscriptions == s.registry.sessions[x].subscriptions)
    && s'.registered == s.registered && s'.tree == s.tree && s'.foreign == s.foreign
  }

  /** How a processor may change while the subscriptions stay as they are. */
  predicate Quiet(a: Processor, b: Processor, foreign: set<Session>) {
    && (b.status == Start ==> a.status == Start)
    && (b.current == None || b.current == a.current || (a.task.Assigning? && b.current == a.task.session))
    && (b.task.Assigning? ==> b.task == a.task)
    && (a.task.Registering? || b.task.Registering? ==> b.task == a.task && b.current == a.current)
    && (b.task.Publishing? && NULL in b.task.todo ==> foreign != {})
  }

  lemma QuietKeeps(s: State, s': State, p: ProcessorId)
    requires Bound(s) && SameSubscriptions(s, s') && p in s.processors && (s'.fault ==> s.foreign != {})
    requires OnlyMoves(s, s', p)
    requires Quiet(s.processors[p], s'.processors[p], s.foreign)
    ensures Bound(s')
  {
  }

  lemma QuietSteps(s: State, l: Label)
    requires Exclusive(s) && Bound(s) && Enabled(s, l)
    requires l.Assign? || l.Reset? || l.Expire?
    ensures Bound(Step(s, l))
  {
    assert ProcessorOk(s, l.p);
    QuietKeeps(s, Step(s, l), l.p);
  }

  lemma DestroyBound(s: State, p: ProcessorId)
    requires Exclusive(s) && Bound(s) && Enabled(s, Destroy(p))
    ensures Bound(Step(s, Destroy(p)))
  {
    assert ProcessorOk(s, p);
    QuietKeeps(s, Step(s, Destroy(p)), p);
  }

  lemma SendBound(s: State, l: Label)
    requires Exclusive(s) && Bound(s) && Enabled(s, l) && l.Send?
    ensures Bound(Step(s, l))
  {
    assert ProcessorOk(s, l.p);
    assert l.session == NULL ==> s.foreign != {} && NULL in s.processors[l.p].task.todo;
    var s' := Step(s, l);
    SendQuiet(s, l.p, l.session);
    SenderQuiet(s, l.p, l.session);
    QuietKeeps(s, s', l.p);
  }

  lemma SendQuiet(s: State, p: ProcessorId, x: Session)
    requires NullOk(s) && Enabled(s, Send(p, x))
    ensures SameSubscriptions(s, SendCopy(s, p, x)) && SendCopy(s, p, x).processors.Keys == s.processors.Keys
    ensures forall q | q in s.processors && q != p :: SendCopy(s, p, x).processors[q] == s.processors[q]
    ensures SendCopy(s, p, x).fault ==> s.foreign != {}
  {
  }

  lemma SenderQuiet(s: State, p: ProcessorId, x: Session)
    requires NullOk(s) && Enabled(s, Send(p, x))
    ensures Quiet(s.processors[p], SendCopy(s, p, x).processors[p], s.foreign)
  {
  }

  lemma QuietPackets(s: State, p: ProcessorId, packet: ControlPacket)
    requires Exclusive(s) && Bound(s) && Enabled(s, Receive(p, packet))
    requires Refusal(s.processors[p], packet) != NoError || packet.PingReq?
    ensures Bound(Process(s, p, packet))
  {
    assert ProcessorOk(s, p);
    QuietKeeps(s, Process(s, p, packet), p);
  }

  lemma DisconnectBound(s: State, p: ProcessorId, packet: ControlPacket)
    requires Exclusive(s) && Bound(s) && Enabled(s, Receive(p, packet))
    requires Refusal(s.processors[p], packet) == NoError && packet.Disconnect?
    ensures Bound(Process(s, p, packet))
  {
    assert ProcessorOk(s, p);
    QuietKeeps(s, Process(s, p, packet), p);
  }

  /** A null session is only found when one has been registered. */
  lemma NullMatch(s: State, topic: seq<Str>)
    requires TreeOk(s) && topic != [] && NULL in TopicMatch(s.tree, topic).sessions
    ensures exists sub :: sub in s.registered && sub.session == NULL
  {
    var path := WalkFindsStored(s.tree, topic, 0, true, NULL);
    AddAllHolds(s.registered, path, NULL);
    assert Subscription(path, NULL).session == NULL;
  }

  lemma PublishBound(s: State, p: ProcessorId, packet: ControlPacket)
    requires Exclusive(s) && Bound(s) && Enabled(s, Receive(p, packet))
    requires Refusal(s.processors[p], packet) == NoError && packet.Publish?
    ensures Bound(Process(s, p, packet))
  {
    assert ProcessorOk(s, p);
    var s' := Process(s, p, packet);
    if s'.processors[p].task.Publishing? && NULL in s'.processors[p].task.todo {
      NullMatch(s, Levels(packet.topic));
    }
    QuietKeeps(s, s', p);
  }

  lemma RemoveBound(s: State, c: Str)
    requires Exclusive(s) && Bound(s) && Enabled(s, Remove(c))
    ensures Bound(Step(s, Remove(c)))
  {
  }

  /** A processor that connects has created no session before. */
  lemma ConnectOldSession(s: State, p: ProcessorId, packet: ControlPacket, x: Session)
    requires Exclusive(s) && Bound(s) && Enabled(s, Receive(p, packet))
    requires Refusal(s.processors[p], packet) == NoError && packet.Connect? && x in s.registry.sessions
    ensures x in Process(s, p, packet).registry.sessions
    ensures HandlerOk(Process(s, p, packet), x) && SubscriptionsOk(Process(s, p, packet), x)
  {
    assert ProcessorOk(s, p) && HandlerOk(s, x) && SubscriptionsOk(s, x);
    ConnectKeepsState(s, p, packet, x);
    OtherSession(s, Process(s, p, packet), p, x);
  }

  lemma ConnectKeepsState(s: State, p: ProcessorId, packet: ControlPacket, x: Session)
    requires Exclusive(s) && Enabled(s, Receive(p, packet)) && x in s.registry.sessions
    requires Refusal(s.processors[p], packet) == NoError && packet.Connect?
    ensures var s' := Process(s, p, packet);
      && x in s'.registry.sessions && s'.registry.sessions[x].handler == s.registry.sessions[x].handler
      && s'.registry.sessions[x].subscriptions == s.registry.sessions[x].subscriptions
  {
  }

  /** A session is not affected by what a processor does that did not create it. */
  lemma OtherSession(s: State, s': State, p: ProcessorId, x: Session)
    requires x in s.registry.sessions && HandlerOk(s, x) && SubscriptionsOk(s, x) && s.registry.sessions[x].handler != p
    requires x in s'.registry.sessions && s'.registry.sessions[x].handler == s.registry.sessions[x].handler
    requires s'.registry.sessions[x].subscriptions == s.registry.sessions[x].subscriptions
    requires s'.registered == s.registered && s'.foreign == s.foreign
    requires OnlyMoves(s, s', p)
    ensures HandlerOk(s', x) && SubscriptionsOk(s', x)
  {
  }

  lemma ConnectNewSession(s: State, p: ProcessorId, packet: ControlPacket, x: Session)
    requires Exclusive(s) && Enabled(s, Receive(p, packet))
    requires Refusal(s.processors[p], packet) == NoError && packet.Connect?
    requires x !in s.registry.sessions && x in Process(s, p, packet).registry.sessions
    ensures HandlerOk(Process(s, p, packet), x) && SubscriptionsOk(Process(s, p, packet), x)
  {
  }

  lemma ConnectBound(s: State, p: ProcessorId, packet: ControlPacket)
    requires Exclusive(s) && Bound(s) && Enabled(s, Receive(p, packet))
    requires Refusal(s.processors[p], packet) == NoError && packet.Connect?
    ensures Bound(Process(s, p, packet))
  {
    assert ProcessorOk(s, p);
    var s' := Process(s, p, packet);
    forall x | x in s'.registry.sessions ensures HandlerOk(s', x) && SubscriptionsOk(s', x) {
      if x in s.registry.sessions {
        ConnectOldSession(s, p, packet, x);
      } else {
        ConnectNewSession(s, p, packet, x);
      }
    }
    forall q | q in s'.processors ensures RegisteringOk(s', q) {
      ConnectRegistering(s, p, packet, q);
    }
  }

  lemma ConnectRegistering(s: State, p: ProcessorId, packet: ControlPacket, q: ProcessorId)
    requires Exclusive(s) && Bound(s) && Enabled(s, Receive(p, packet)) && q in s.processors
    requires Refusal(s.processors[p], packet) == NoError && packet.Connect?
    ensures q in Process(s, p, packet).processors && RegisteringOk(Process(s, p, packet), q)
  {
    assert RegisteringOk(s, q) && ProcessorOk(s, q);
    if s.processors[q].current.Some? {
      ConnectKeepsState(s, p, packet, s.processors[q].current.value);
    }
  }

  lemma SubscribeSession(s: State, p: ProcessorId, packet: ControlPacket, x: Session)
    requires Exclusive(s) && Bound(s) && Enabled(s, Receive(p, packet)) && x in s.registry.sessions
    requires Refusal(s.processors[p], packet) == NoError && packet.Subscribe?
    ensures x in Process(s, p, packet).registry.sessions
    ensures HandlerOk(Process(s, p, packet), x) && SubscriptionsOk(Process(s, p, packet), x)
  {
    assert ProcessorOk(s, p) && HandlerOk(s, x) && SubscriptionsOk(s, x);
    if s.processors[p].current != Some(x) {
      forall f | Pending(s, x, f) ensures Pending(Process(s, p, packet), x, f) {
      }
    }
  }

  lemma SubscribeBound(s: State, p: ProcessorId, packet: ControlPacket)
    requires Exclusive(s) && Bound(s) && Enabled(s, Receive(p, packet))
    requires Refusal(s.processors[p], packet) == NoError && packet.Subscribe?
    ensures Bound(Process(s, p, packet))
  {
    assert ProcessorOk(s, p);
    var s' := Process(s, p, packet);
    forall x | x in s'.registry.sessions ensures HandlerOk(s', x) && SubscriptionsOk(s', x) {
      SubscribeSession(s, p, packet, x);
    }
    forall q | q in s'.processors ensures RegisteringOk(s', q) {
      assert RegisteringOk(s, q);
    }
  }

  lemma SubscriptionRegistered(pr: Processor, early: nat, x: Session, f: TopicFilter)
    requires pr.task.Registering? && pr.current == Some(x) && f in pr.task.news
    ensures Subscription(Levels(f.filter), x) in Batch(pr.task.news, pr, early)
  {
    var news := pr.task.news;
    assert news[..|news|] == news && news[|news|..] == [];
  }

  lemma RegisterSubscriptions(s: State, p: ProcessorId, early: nat, x: Session)
    requires Exclusive(s) && Bound(s) && Enabled(s, Register(p, early)) && x in s.registry.sessions
    ensures RegisterFilters(s, p, early).registry == s.registry
    ensures HandlerOk(RegisterFilters(s, p, early), x) && SubscriptionsOk(RegisterFilters(s, p, early), x)
  {
    var s' := RegisterFilters(s, p, early);
    var h := s.registry.sessions[x].handler;
    assert ProcessorOk(s, p) && RegisteringOk(s, p) && HandlerOk(s, x) && SubscriptionsOk(s, x);
    if x !in s.foreign && !s'.fault {
      forall f | f in s.registry.sessions[x].subscriptions
        ensures Subscription(Levels(f.filter), x) in s'.registered || Pending(s', x, f)
      {
        if Subscription(Levels(f.filter), x) !in s.registered {
          assert Pending(s, x, f);
          if h == p {
            SubscriptionRegistered(s.processors[p], early, x, f);
          }
        }
      }
    }
  }

  lemma RegisterRegistering(s: State, p: ProcessorId, early: nat, q: ProcessorId)
    requires Exclusive(s) && Bound(s) && Enabled(s, Register(p, early)) && q in RegisterFilters(s, p, early).processors
    ensures RegisteringOk(RegisterFilters(s, p, early), q)
  {
  }

  lemma RegisterBound(s: State, p: ProcessorId, early: nat)
    requires Exclusive(s) && Bound(s) && Enabled(s, Register(p, early))
    ensures Bound(RegisterFilters(s, p, early))
  {
    var s' := RegisterFilters(s, p, early);
    assert s'.registry == s.registry;
    forall x | x in s'.registry.sessions ensures HandlerOk(s', x) && SubscriptionsOk(s', x) {
      RegisterSubscriptions(s, p, early, x);
    }
    forall q | q in s'.processors ensures RegisteringOk(s', q) {
      RegisterRegistering(s, p, early, q);
    }
    RegisterTree(s, p, early);
    RegisterNull(s, p, early);
  }

  /** A published tree grows by a batch. */
  lemma GrownTree(registered: seq<Subscription>, subs: seq<Subscription>)
    requires NoEmptyPath(registered) && NoEmptyPath(subs)
    ensures NoEmptyPath(registered + subs)
    ensures AddAll(Clone(AddAll(EMPTY, registered)), subs) == AddAll(EMPTY, registered + subs)
  {
    CloneFidelity(registered);
    AddAllConcat(EMPTY, registered, subs);
  }

  lemma BatchHasLevels(news: seq<TopicFilter>, handler: Processor, early: nat)
    ensures NoEmptyPath(Batch(news, handler, early))
  {
  }

  lemma RegisterTree(s: State, p: ProcessorId, early: nat)
    requires TreeOk(s) && Enabled(s, Register(p, early))
    ensures TreeOk(RegisterFilters(s, p, early))
  {
    var s' := RegisterFilters(s, p, early);
    if !s'.fault {
      var h := s.registry.sessions[s.processors[p].current.value].handler;
      var subs := Batch(s.processors[p].task.news, s.processors[h], early);
      BatchHasLevels(s.processors[p].task.news, s.processors[h], early);
      GrownTree(s.registered, subs);
      assert s'.registered == s.registered + subs;
    }
  }

  lemma RegisterNull(s: State, p: ProcessorId, early: nat)
    requires Exclusive(s) && Bound(s) && Enabled(s, Register(p, early))
    ensures NullOk(RegisterFilters(s, p, early))
  {
    assert ProcessorOk(s, p) && RegisteringOk(s, p);
  }

  lemma StepBound(s: State, l: Label)
    requires Exclusive(s) && Bound(s) && Enabled(s, l)
    ensures Bound(Step(s, l))
  {
    match l
    case Receive(p, packet) =>
      if Refusal(s.processors[p], packet) != NoError || packet.PingReq? {
        QuietPackets(s, p, packet);
      } else if packet.Connect? {
        ConnectBound(s, p, packet);
      } else if packet.Disconnect? {
        DisconnectBound(s, p, packet);
      } else if packet.Subscribe? {
        SubscribeBound(s, p, packet);
      } else {
        PublishBound(s, p, packet);
      }
    case Register(p, early) => RegisterBound(s, p, early);
    case Send(_, _) => SendBound(s, l);
    case Destroy(p) => DestroyBound(s, p);
    case Remove(c) => RemoveBound(s, c);
    case _ => QuietSteps(s, l);
  }

  // ---------------------------------------------------------------- whole runs

  lemma {:induction false} RunKeeps(s: State, labels: seq<Label>)
    requires Exclusive(s) && Bound(s) && CanRun(s, labels)
    ensures Exclusive(Run(s, labels)) && Bound(Run(s, labels))
    decreases labels
  {
    if labels != [] {
      StepExclusive(s, labels[0]);
      StepBound(s, labels[0]);
      RunKeeps(Step(s, labels[0]), labels[1..]);
    }
  }

  lemma Reachable(ps: set<ProcessorId>, labels: seq<Label>)
    requires CanRun(Init(ps), labels)
    ensures Exclusive(Run(Init(ps), labels)) && Bound(Run(Init(ps), labels))
  {
    RunKeeps(Init(ps), labels);
  }

  predicate HasSession(s: State, p: ProcessorId, x: Session) {
    p in s.processors && Holding(s.processors[p]) == Some(x)
  }

  /** In every run: a client id belongs to at most one processor at a time, and an entry is in
      use exactly while some processor has that very session. */
  lemma SessionsAreExclusive(ps: set<ProcessorId>, labels: seq<Label>)
    requires CanRun(Init(ps), labels)
    ensures var s := Run(Init(ps), labels);
      && (forall p, q, x, y | HasSession(s, p, x) && HasSession(s, q, y) ::
            && x in s.registry.sessions && y in s.registry.sessions
            && (s.registry.sessions[x].clientId == s.registry.sessions[y].clientId ==> p == q))
      && (forall c | c in s.registry.entries ::
            s.registry.entries[c].inUse <==> exists p :: HasSession(s, p, s.registry.entries[c].session))
  {
    Reachable(ps, labels);
    var s := Run(Init(ps), labels);
    forall p, q, x, y | HasSession(s, p, x) && HasSession(s, q, y)
      ensures && x in s.registry.sessions && y in s.registry.sessions
              && (s.registry.sessions[x].clientId == s.registry.sessions[y].clientId ==> p == q)
    {
      assert HoldingOk(s, p) && HoldingOk(s, q);
    }
    forall c | c in s.registry.entries
      ensures s.registry.entries[c].inUse <==> exists p :: HasSession(s, p, s.registry.entries[c].session)
    {
      InUseMeansHeld(s, c);
    }
  }

  lemma InUseMeansHeld(s: State, c: Str)
    requires Exclusive(s) && c in s.registry.entries
    ensures s.registry.entries[c].inUse <==> exists p :: HasSession(s, p, s.registry.entries[c].session)
  {
    var x := s.registry.entries[c].session;
    assert EntryOk(s, c) && SessionOk(s, x);
    if s.registry.entries[c].inUse {
      assert HasSession(s, s.registry.sessions[x].sender.value, x);
    } else if p :| HasSession(s, p, x) {
      assert HoldingOk(s, p);
    }
  }

  /** Nothing subscribed is lost: unless another processor than the creator has subscribed
      through the session, every stored filter is in the published tree once no SUBSCRIBE of
      the creator is under way, and a match finds it: with independent cursors always, as it is
      written when no two registered filters clash. */
  lemma SubscriptionsAreConserved(ps: set<ProcessorId>, labels: seq<Label>, x: Session, f: TopicFilter, topic: Str)
    requires CanRun(Init(ps), labels)
    requires var s := Run(Init(ps), labels);
      && x in s.registry.sessions && x !in s.foreign && f in s.registry.sessions[x].subscriptions
      && var h := s.registry.sessions[x].handler;
         h in s.processors ==> !s.processors[h].task.Registering?
    requires Accepted(f.filter) && FilterMatches(Levels(f.filter), Levels(topic))
    ensures var s := Run(Init(ps), labels);
      && x in Match(s.tree, Levels(topic)).sessions
      && (Clashless(s.registered) && WildcardFree(topic) ==> x in TopicMatch(s.tree, Levels(topic)).sessions)
  {
    Reachable(ps, labels);
    var s := Run(Init(ps), labels);
    assert SubscriptionsOk(s, x);
    AcceptedIsAddable(f.filter);
    assert Subscription(Levels(f.filter), x) in s.registered;
    TrieRefinesFlatList(s.registered, Levels(topic), x);
    if Clashless(s.registered) && WildcardFree(topic) {
      NameLevels(topic);
      SharedCursorRefinesFlatList(s.registered, Levels(topic), x);
    }
  }

  /** No null session and no destroyed handler is used before some processor subscribes through
      a session that another one created. */
  lemma NoFaultWithoutForeignSubscribe(ps: set<ProcessorId>, labels: seq<Label>)
    requires CanRun(Init(ps), labels)
    ensures Run(Init(ps), labels).foreign == {} ==> !Run(Init(ps), labels).fault
  {
    Reachable(ps, labels);
  }

  function Min(a: nat, b: nat): nat {
    if a < b then a else b
  }

  /** The first `n` filters for `x`, the others for the null session. */
  function SplitBatch(news: seq<TopicFilter>, x: Session, n: nat): seq<Subscription>
    requires n <= |news|
  {
    SubscriptionsOf(news[..n], x) + SubscriptionsOf(news[n..], NULL)
  }

  lemma BatchSplits(news: seq<TopicFilter>, handler: Processor, early: nat, x: Session)
    ensures handler.current == Some(x) && !handler.task.Returning? ==>
      Batch(news, handler, early) == SplitBatch(news, x, |news|)
    ensures handler.current == Some(x) && handler.task.Returning? ==>
      Batch(news, handler, early) == SplitBatch(news, x, Min(early, |news|))
    ensures handler.current.None? && !handler.task.Returning? ==>
      Batch(news, handler, early) == SplitBatch(news, x, 0)
  {
    assert news[..|news|] == news[0..] && news[..0] == news[|news|..] == [];
  }

  /** The current session of the processor that created the session: that very session for the
      creator itself and for one that is about to forget it; nothing otherwise. */
  lemma CreatorHas(s: State, p: ProcessorId, early: nat)
    requires Exclusive(s) && Bound(s) && Enabled(s, Register(p, early))
    ensures var pr := s.processors[p];
      && pr.current.Some? && Holding(pr) == pr.current && pr.current.value in s.registry.sessions
      && var h := s.registry.sessions[pr.current.value].handler;
         h in s.processors && if h == p || s.processors[h].task.Returning?
                              then s.processors[h].current == pr.current
                              else s.processors[h].destroyed || s.processors[h].current.None?
  {
    assert ProcessorOk(s, p);
    var x := s.processors[p].current.value;
    assert HandlerOk(s, x) && HoldingOk(s, p);
    var h := s.registry.sessions[x].handler;
    assert ProcessorOk(s, h) && HoldingOk(s, h);
  }

  /** What SUBSCRIBE really registers: the session itself when its creator asks, otherwise the
      null session, but for the first filters when the creator is just about to forget the
      session; a destroyed creator is used all the same. */
  lemma RegisterExact(s: State, p: ProcessorId, early: nat)
    requires Exclusive(s) && Bound(s) && Enabled(s, Register(p, early))
    ensures var x := Holding(s.processors[p]).value;
      && Holding(s.processors[p]) == Some(x) && x in s.registry.sessions
      && var h, s', news := s.registry.sessions[x].handler, Step(s, Register(p, early)), s.processors[p].task.news;
         && h in s.processors
         && (s'.fault <==> s.processors[h].destroyed)
         && var n := if h == p then |news| else if s.processors[h].task.Returning? then Min(early, |news|) else 0;
            (!s'.fault ==> s'.registered == s.registered + SplitBatch(news, x, n))
  {
    CreatorHas(s, p, early);
    var x := s.processors[p].current.value;
    BatchSplits(s.processors[p].task.news, s.processors[s.registry.sessions[x].handler], early, x);
  }

  // ---------------------------------------------------------------- answers to SUBSCRIBE

  /** The SUBACK packets among these. */
  function SubAcks(ps: seq<ControlPacket>): seq<ControlPacket> {
    if ps == [] then []
    else SubAcks(ps[..|ps| - 1]) + (if ps[|ps| - 1].SubAck? then [ps[|ps| - 1]] else [])
  }

  lemma SubAcksSnoc(ps: seq<ControlPacket>, p: ControlPacket)
    ensures SubAcks(ps + [p]) == SubAcks(ps) + if p.SubAck? then [p] else []
  {
    assert (ps + [p])[..|ps|] == ps;
  }

  /** The answer that is still to come for the SUBSCRIBE under way. */
  function Unanswered(s: State, q: ProcessorId): seq<ControlPacket> {
    if q in s.processors && s.processors[q].task.Registering?
    then [SubAck(s.processors[q].task.id, QoSLevels(s.processors[q].task.filters))]
    else []
  }

  /** The answer a step makes due: its own identifier, and the QoS of each filter in its order. */
  function AnswerDue(s: State, l: Label, q: ProcessorId): seq<ControlPacket> {
    if l.Receive? && l.p == q && l.packet.Subscribe? && q in s.processors
       && Refusal(s.processors[q], l.packet) == NoError
    then [SubAck(l.packet.subscribeId, QoSLevels(l.packet.filters))]
    else []
  }

  /** The answers to all the SUBSCRIBE packets of `q` accepted in a run. */
  ghost function AnswersDue(s: State, labels: seq<Label>, q: ProcessorId): seq<ControlPacket>
    requires CanRun(s, labels)
    decreases labels
  {
    if labels == [] then []
    else AnswerDue(s, labels[0], q) + AnswersDue(Step(s, labels[0]), labels[1..], q)
  }

  /** The answers given and the one still to come. */
  function Answers(s: State, q: ProcessorId): seq<ControlPacket>
    requires q in s.outbox
  {
    SubAcks(s.outbox[q]) + Unanswered(s, q)
  }

  /** The outbox of `q` is as before or has one more packet, no SUBACK. */
  predicate NoAnswer(s: State, s': State, q: ProcessorId)
    requires q in s.outbox
  {
    && q in s'.outbox
    && (s'.outbox[q] == s.outbox[q] || (
          && |s'.outbox[q]| == |s.outbox[q]| + 1 && s'.outbox[q][..|s.outbox[q]|] == s.outbox[q]
          && !s'.outbox[q][|s.outbox[q]|].SubAck?))
  }

  lemma NoAnswerKeeps(s: State, s': State, q: ProcessorId)
    requires q in s.outbox && NoAnswer(s, s', q)
    ensures SubAcks(s'.outbox[q]) == SubAcks(s.outbox[q])
  {
    if s'.outbox[q] != s.outbox[q] {
      assert s'.outbox[q] == s.outbox[q] + [s'.outbox[q][|s.outbox[q]|]];
      SubAcksSnoc(s.outbox[q], s'.outbox[q][|s.outbox[q]|]);
    }
  }

  lemma ReceiveGives(s: State, p: ProcessorId, packet: ControlPacket, q: ProcessorId)
    requires Enabled(s, Receive(p, packet)) && q in s.outbox && !Process(s, p, packet).fault
    ensures NoAnswer(s, Process(s, p, packet), q)
    ensures Unanswered(Process(s, p, packet), q) == Unanswered(s, q) + AnswerDue(s, Receive(p, packet), q)
  {
  }

  lemma OtherGives(s: State, l: Label, q: ProcessorId)
    requires Exclusive(s) && Enabled(s, l) && !l.Receive? && !l.Register? && q in s.outbox
    ensures NoAnswer(s, Step(s, l), q)
    ensures Unanswered(Step(s, l), q) == Unanswered(s, q) && AnswerDue(s, l, q) == []
  {
    assert l.Send? ==> ProcessorOk(s, l.p);
  }

  lemma RegisterAnswers(s: State, p: ProcessorId, early: nat, q: ProcessorId)
    requires Enabled(s, Register(p, early)) && q in s.outbox && !RegisterFilters(s, p, early).fault
    ensures q in RegisterFilters(s, p, early).outbox && Answers(RegisterFilters(s, p, early), q) == Answers(s, q)
  {
    var task := s.processors[p].task;
    SubAcksSnoc(s.outbox[q], SubAck(task.id, QoSLevels(task.filters)));
  }

  lemma StepAnswers(s: State, l: Label, q: ProcessorId)
    requires Exclusive(s) && Enabled(s, l) && q in s.outbox && !Step(s, l).fault
    ensures q in Step(s, l).outbox && Answers(Step(s, l), q) == Answers(s, q) + AnswerDue(s, l, q)
  {
    if l.Register? {
      RegisterAnswers(s, l.p, l.early, q);
    } else {
      if l.Receive? {
        ReceiveGives(s, l.p, l.packet, q);
      } else {
        OtherGives(s, l, q);
      }
      NoAnswerKeeps(s, Step(s, l), q);
    }
  }

  lemma AnswersAssoc(a: seq<ControlPacket>, b: seq<ControlPacket>, c: seq<ControlPacket>)
    ensures a + (b + c) == (a + b) + c
  {
  }

  lemma {:induction false} RunAnswers(s: State, labels: seq<Label>, q: ProcessorId)
    requires Exclusive(s) && CanRun(s, labels) && q in s.outbox && !Run(s, labels).fault
    ensures q in Run(s, labels).outbox
    ensures Answers(Run(s, labels), q) == Answers(s, q) + AnswersDue(s, labels, q)
    decreases labels
  {
    if labels != [] {
      FaultStays(Step(s, labels[0]), labels[1..]);
      StepExclusive(s, labels[0]);
      StepAnswers(s, labels[0], q);
      RunAnswers(Step(s, labels[0]), labels[1..], q);
      AnswersAssoc(Answers(s, q), AnswerDue(s, labels[0], q), AnswersDue(Step(s, labels[0]), labels[1..], q));
    }
  }

  /** In every run, whatever the others do meanwhile: the SUBACK packets sent to a connection are
      the answers to its accepted SUBSCRIBE packets, one each and in their order, but for the one
      it is working on. Each has the packet's identifier and the QoS of its filters in their
      order, whether or not they were new and wherever they have been registered. */
  lemma SubscribesAreAnswered(ps: set<ProcessorId>, labels: seq<Label>, q: ProcessorId)
    requires CanRun(Init(ps), labels) && !Run(Init(ps), labels).fault && q in ps
    ensures var s := Run(Init(ps), labels);
      q in s.outbox && SubAcks(s.outbox[q]) + Unanswered(s, q) == AnswersDue(Init(ps), labels, q)
  {
    RunAnswers(Init(ps), labels, q);
  }

  // ---------------------------------------------------------------- publishing

  function Todo(s: State, p: ProcessorId): set<Session>
    requires p in s.processors
  {
    if s.processors[p].task.Publishing? then s.processors[p].task.todo else {}
  }

  /** The copies processor `p` sends in a run. */
  function Sends(labels: seq<Label>, p: ProcessorId): seq<Session> {
    if labels == [] then [] else SendOf(labels[0], p) + Sends(labels[1..], p)
  }

  function SendOf(l: Label, p: ProcessorId): seq<Session> {
    if l.Send? && l.p == p then [l.session] else []
  }

  predicate NoPacketFor(p: ProcessorId, labels: seq<Label>) {
    forall i | 0 <= i < |labels| :: !(labels[i].Receive? && labels[i].p == p)
  }

  /** Only `p` itself works on what `p` has to send. */
  lemma TodoOther(s: State, l: Label, p: ProcessorId)
    requires Enabled(s, l) && p in s.processors && (l.Remove? || l.p != p || l.Expire?)
    ensures p in Step(s, l).processors && Todo(Step(s, l), p) == Todo(s, p)
  {
  }

  lemma TodoOwn(s: State, l: Label, p: ProcessorId)
    requires Enabled(s, l) && p in s.processors && !l.Remove? && l.p == p && !l.Receive? && !Step(s, l).fault
    ensures p in Step(s, l).processors
    ensures Todo(Step(s, l), p) == if l.Send? then Todo(s, p) - {l.session} else Todo(s, p)
  {
  }

  lemma TodoStep(s: State, l: Label, p: ProcessorId)
    requires Enabled(s, l) && p in s.processors && !(l.Receive? && l.p == p) && !Step(s, l).fault
    ensures p in Step(s, l).processors
    ensures multiset(SendOf(l, p)) + multiset(Todo(Step(s, l), p)) == multiset(Todo(s, p))
  {
    if l.Remove? || l.p != p {
      TodoOther(s, l, p);
    } else {
      TodoOwn(s, l, p);
    }
  }

  /** However the steps of others come in between, each session is served once. */
  lemma {:induction false} SendsOnce(s: State, labels: seq<Label>, p: ProcessorId)
    requires CanRun(s, labels) && p in s.processors && !Run(s, labels).fault && NoPacketFor(p, labels)
    ensures p in Run(s, labels).processors
    ensures multiset(Sends(labels, p)) + multiset(Todo(Run(s, labels), p)) == multiset(Todo(s, p))
    decreases labels
  {
    if labels != [] {
      FaultStays(Step(s, labels[0]), labels[1..]);
      TodoStep(s, labels[0], p);
      SendsOnce(Step(s, labels[0]), labels[1..], p);
    }
  }

  lemma FaultStays(s: State, labels: seq<Label>)
    requires CanRun(s, labels)
    ensures s.fault ==> Run(s, labels).fault
  {
  }

  /** Some filter registered for `x` matches the topic. */
  ghost predicate Subscribed(s: State, x: Session, topic: Str) {
    exists sub :: sub in s.registered
               && sub.session == x && Addable(sub.levels) && FilterMatches(sub.levels, Levels(topic))
  }

  /** The match as written finds `x` in the published tree. */
  predicate Found(s: State, x: Session, topic: Str) {
    x in TopicMatch(s.tree, Levels(topic)).sessions
  }

  lemma Recipients(s: State, topic: Str, x: Session)
    requires TreeOk(s) && WildcardFree(topic)
    ensures Clashless(s.registered) ==> (Found(s, x, topic) <==> Subscribed(s, x, topic))
  {
    if Clashless(s.registered) {
      NameLevels(topic);
      SharedCursorRefinesFlatList(s.registered, Levels(topic), x);
    }
  }

  /** `p` takes up an accepted PUBLISH. */
  predicate Publishes(s: State, p: ProcessorId, packet: ControlPacket) {
    && Enabled(s, Receive(p, packet)) && packet.Publish? && WildcardFree(packet.topic)
    && Refusal(s.processors[p], packet) == NoError
  }

  lemma PublishStarts(s: State, p: ProcessorId, packet: ControlPacket)
    requires Publishes(s, p, packet)
    ensures var s' := Step(s, Receive(p, packet));
      && PublishesOnly(s', p, packet) && Todo(s', p) == TopicMatch(s.tree, Levels(packet.topic)).sessions
  {
  }

  /** Publishing end to end: once processor `p` is through with an accepted PUBLISH, it has sent
      exactly one copy for every session found in the tree published when it began, and none
      for anybody else. When no two filters clash these are the sessions with a matching
      filter, however many of them match. */
  lemma PublishServesEachOnce(s: State, p: ProcessorId, packet: ControlPacket, labels: seq<Label>, x: Session)
    requires TreeOk(s) && Publishes(s, p, packet)
    requires CanRun(Step(s, Receive(p, packet)), labels) && NoPacketFor(p, labels)
    requires var s' := Run(Step(s, Receive(p, packet)), labels);
      !s'.fault && p in s'.processors && !s'.processors[p].task.Publishing?
    ensures multiset(Sends(labels, p))[x] == if Found(s, x, packet.topic) then 1 else 0
    ensures Clashless(s.registered) ==>
      multiset(Sends(labels, p))[x] == if Subscribed(s, x, packet.topic) then 1 else 0
  {
    var s1 := Step(s, Receive(p, packet));
    PublishStarts(s, p, packet);
    SendsOnce(s1, labels, p);
    Recipients(s, packet.topic, x);
    assert multiset(Todo(s1, p))[x] == if x in Todo(s1, p) then 1 else 0;
  }

  // ---------------------------------------------------------------- copies in the outboxes

  predicate Receives(s: State, q: ProcessorId, x: Session)
    requires q in s.processors
  {
    s.processors[q].live && Holding(s.processors[q]) == Some(x)
  }

  function CopyIf(b: bool, message: ControlPacket): seq<ControlPacket> {
    if b then [message] else []
  }

  /** A copy goes to the connection whose processor has the session, if it is alive. */
  lemma CopyArrives(s: State, p: ProcessorId, x: Session, q: ProcessorId)
    requires Exclusive(s) && Enabled(s, Send(p, x)) && x != NULL && q in s.processors && q in s.outbox
    ensures var s' := SendCopy(s, p, x);
      q in s'.outbox && s'.outbox[q] == s.outbox[q] + CopyIf(Receives(s, q, x), s.processors[p].task.message)
  {
  }

  /** What this step, if it is one of `p` sending, appends to the outbox of `q`. */
  function Appended(s: State, l: Label, p: ProcessorId, q: ProcessorId): seq<ControlPacket>
    requires Enabled(s, l)
  {
    if l.Send? && l.p == p && q in s.outbox && q in Step(s, l).outbox && |s.outbox[q]| <= |Step(s, l).outbox[q]|
    then Step(s, l).outbox[q][|s.outbox[q]|..]
    else []
  }

  /** All that `p` appends to the outbox of `q` in a run. */
  ghost function Delivered(s: State, labels: seq<Label>, p: ProcessorId, q: ProcessorId): seq<ControlPacket>
    requires CanRun(s, labels)
    decreases labels
  {
    if labels == [] then []
    else Appended(s, labels[0], p, q) + Delivered(Step(s, labels[0]), labels[1..], p, q)
  }

  lemma OutboxGrows(s: State, l: Label, q: ProcessorId)
    requires Enabled(s, l) && q in s.outbox
    ensures q in Step(s, l).outbox && s.outbox[q] <= Step(s, l).outbox[q]
  {
  }

  /** What has been delivered is there in the end: an outbox only grows. */
  lemma {:induction false} DeliveredIsEnqueued(s: State, labels: seq<Label>, p: ProcessorId, q: ProcessorId)
    requires CanRun(s, labels) && q in s.outbox
    ensures q in Run(s, labels).outbox
    ensures multiset(s.outbox[q]) + multiset(Delivered(s, labels, p, q)) <= multiset(Run(s, labels).outbox[q])
    decreases labels
  {
    if labels != [] {
      var s' := Step(s, labels[0]);
      OutboxGrows(s, labels[0], q);
      DeliveredIsEnqueued(s', labels[1..], p, q);
      assert s'.outbox[q] == s.outbox[q] + s'.outbox[q][|s.outbox[q]|..];
    }
  }

  lemma CopyAppended(s: State, p: ProcessorId, x: Session, q: ProcessorId)
    requires Exclusive(s) && Enabled(s, Send(p, x)) && !SendCopy(s, p, x).fault && q in s.processors
    ensures Appended(s, Send(p, x), p, q) == CopyIf(Receives(s, q, x), s.processors[p].task.message)
  {
    assert ProcessorOk(s, q);
    CopyArrives(s, p, x, q);
  }

  /** A processor that has connected never gets a session it did not have. */
  lemma HoldingShrinks(s: State, l: Label, q: ProcessorId)
    requires Exclusive(s) && Enabled(s, l) && q in s.processors && s.processors[q].status != Start
    ensures q in Step(s, l).processors && Step(s, l).processors[q].status != Start
    ensures Holding(Step(s, l).processors[q]) in {Holding(s.processors[q]), None}
  {
    if l.Receive? {
      ReceiveShrinks(s, l.p, l.packet, q);
    } else if l.Remove? || l.p != q {
      assert Step(s, l).processors[q] == s.processors[q];
    } else {
      OwnShrinks(s, l);
    }
  }

  lemma OwnShrinks(s: State, l: Label)
    requires Exclusive(s) && Enabled(s, l) && !l.Receive? && !l.Remove? && s.processors[l.p].status != Start
    ensures l.p in Step(s, l).processors && Step(s, l).processors[l.p].status != Start
    ensures Holding(Step(s, l).processors[l.p]) in {Holding(s.processors[l.p]), None}
  {
    assert ProcessorOk(s, l.p);
  }

  lemma ReceiveShrinks(s: State, p: ProcessorId, packet: ControlPacket, q: ProcessorId)
    requires Exclusive(s) && Enabled(s, Receive(p, packet)) && q in s.processors && s.processors[q].status != Start
    ensures q in Process(s, p, packet).processors && Process(s, p, packet).processors[q].status != Start
    ensures Holding(Process(s, p, packet).processors[q]) in {Holding(s.processors[q]), None}
  {
    assert ProcessorOk(s, q);
  }

  /** The message of a publisher stays the same until it is through. */
  predicate PublishesOnly(s: State, p: ProcessorId, message: ControlPacket) {
    p in s.processors && (s.processors[p].task.Publishing? ==> s.processors[p].task.message == message)
  }

  lemma MessageStep(s: State, l: Label, p: ProcessorId, message: ControlPacket)
    requires Enabled(s, l) && PublishesOnly(s, p, message) && !(l.Receive? && l.p == p)
    ensures PublishesOnly(Step(s, l), p, message)
  {
  }

  /** Where the publisher stands after a step of anybody, and what the step appended for `q`. */
  lemma PublishStep(s: State, l: Label, p: ProcessorId, q: ProcessorId, message: ControlPacket)
    requires Exclusive(s) && Enabled(s, l) && PublishesOnly(s, p, message) && q in s.processors
    requires !(l.Receive? && l.p == p) && !Step(s, l).fault
    ensures var s' := Step(s, l);
      && Exclusive(s') && PublishesOnly(s', p, message)
      && Todo(s', p) == (if l.Send? && l.p == p then Todo(s, p) - {l.session} else Todo(s, p))
      && Appended(s, l, p, q) == CopyIf(l.Send? && l.p == p && Receives(s, q, l.session), message)
      && (l.Send? && l.p == p ==> l.session in Todo(s, p))
  {
    StepExclusive(s, l);
    MessageStep(s, l, p, message);
    if l.Remove? || l.p != p {
      TodoOther(s, l, p);
    } else {
      TodoOwn(s, l, p);
    }
    if l.Send? && l.p == p {
      CopyAppended(s, p, l.session, q);
    }
  }

  lemma StaysProcessor(s: State, l: Label, q: ProcessorId)
    requires Enabled(s, l) && q in s.processors
    ensures q in Step(s, l).processors
    ensures l != Expire(q) && l != Destroy(q) ==> Step(s, l).processors[q].live == s.processors[q].live
  {
  }

  /** A run, without a fault, in which `p` at most works on `message`, watched at `q`. */
  ghost predicate Underway(s: State, labels: seq<Label>, p: ProcessorId, q: ProcessorId, message: ControlPacket) {
    && Exclusive(s) && CanRun(s, labels) && !Run(s, labels).fault && NoPacketFor(p, labels)
    && PublishesOnly(s, p, message) && q in s.processors
  }

  lemma Onward(s: State, labels: seq<Label>, p: ProcessorId, q: ProcessorId, message: ControlPacket)
    requires Underway(s, labels, p, q, message) && labels != []
    ensures var l, s' := labels[0], Step(s, labels[0]);
      && !s'.fault && Underway(s', labels[1..], p, q, message)
      && Todo(s', p) == (if l.Send? && l.p == p then Todo(s, p) - {l.session} else Todo(s, p))
      && (l.Send? && l.p == p ==> l.session in Todo(s, p))
      && Delivered(s, labels, p, q)
         == CopyIf(l.Send? && l.p == p && Receives(s, q, l.session), message) + Delivered(s', labels[1..], p, q)
  {
    FaultStays(Step(s, labels[0]), labels[1..]);
    PublishStep(s, labels[0], p, q, message);
    StaysProcessor(s, labels[0], q);
  }

  /** Nothing more comes for a processor whose session has been served, or that has none. */
  lemma {:induction false} ServedGetsNoMore(
      s: State, labels: seq<Label>, p: ProcessorId, q: ProcessorId, message: ControlPacket)
    requires Underway(s, labels, p, q, message) && s.processors[q].status != Start
    requires Holding(s.processors[q]).None? || Holding(s.processors[q]).value !in Todo(s, p)
    ensures Delivered(s, labels, p, q) == []
    decreases labels
  {
    if labels != [] {
      Onward(s, labels, p, q, message);
      HoldingShrinks(s, labels[0], q);
      ServedGetsNoMore(Step(s, labels[0]), labels[1..], p, q, message);
    }
  }

  /** Whatever comes in between: nobody gets a second copy. */
  lemma {:induction false} AtMostOneCopy(
      s: State, labels: seq<Label>, p: ProcessorId, q: ProcessorId, message: ControlPacket)
    requires Underway(s, labels, p, q, message)
    ensures Delivered(s, labels, p, q) == [] || Delivered(s, labels, p, q) == [message]
    decreases labels
  {
    if labels != [] {
      var l, s' := labels[0], Step(s, labels[0]);
      Onward(s, labels, p, q, message);
      if l.Send? && l.p == p && Receives(s, q, l.session) {
        assert ProcessorOk(s, q);
        HoldingShrinks(s, l, q);
        ServedGetsNoMore(s', labels[1..], p, q, message);
      } else {
        AtMostOneCopy(s', labels[1..], p, q, message);
      }
    }
  }

  /** The `i`th step is `p` sending the copy for the session that `q`, alive, has at that moment. */
  ghost predicate ServedAt(s: State, labels: seq<Label>, p: ProcessorId, q: ProcessorId, i: nat) {
    && i < |labels| && CanRun(s, labels[..i]) && labels[i].Send? && labels[i].p == p
    && q in Run(s, labels[..i]).processors && Receives(Run(s, labels[..i]), q, labels[i].session)
  }

  lemma ServedLater(s: State, labels: seq<Label>, p: ProcessorId, q: ProcessorId, i: nat)
    requires labels != [] && Enabled(s, labels[0])
    ensures ServedAt(s, labels, p, q, i + 1) <==> ServedAt(Step(s, labels[0]), labels[1..], p, q, i)
  {
    if i + 1 < |labels| {
      assert labels[..i + 1][0] == labels[0] && labels[..i + 1][1..] == labels[1..][..i];
    }
  }

  /** A copy that was delivered was sent for the session the receiver had. */
  lemma {:induction false} DeliveredAt(
      s: State, labels: seq<Label>, p: ProcessorId, q: ProcessorId, message: ControlPacket) returns (i: nat)
    requires Underway(s, labels, p, q, message) && Delivered(s, labels, p, q) != []
    ensures ServedAt(s, labels, p, q, i)
    decreases labels
  {
    var l := labels[0];
    Onward(s, labels, p, q, message);
    if l.Send? && l.p == p && Receives(s, q, l.session) {
      i := 0;
    } else {
      i := DeliveredAt(Step(s, l), labels[1..], p, q, message);
      ServedLater(s, labels, p, q, i);
      i := i + 1;
    }
  }

  /** Whoever is served gets a copy, for a session that was to be served. */
  lemma {:induction false} ServedIsDelivered(
      s: State, labels: seq<Label>, p: ProcessorId, q: ProcessorId, message: ControlPacket, i: nat)
    requires Underway(s, labels, p, q, message) && ServedAt(s, labels, p, q, i)
    ensures Delivered(s, labels, p, q) != [] && labels[i].session in Todo(s, p)
    decreases labels
  {
    Onward(s, labels, p, q, message);
    if i > 0 {
      ServedLater(s, labels, p, q, i - 1);
      ServedIsDelivered(Step(s, labels[0]), labels[1..], p, q, message, i - 1);
    }
  }

  /** A processor that has connected has, at any later moment, the session it has now or none. */
  lemma {:induction false} HoldingLater(s: State, labels: seq<Label>, q: ProcessorId)
    requires Exclusive(s) && CanRun(s, labels) && q in s.processors && s.processors[q].status != Start
    ensures q in Run(s, labels).processors
    ensures Holding(Run(s, labels).processors[q]) in {Holding(s.processors[q]), None}
    decreases labels
  {
    if labels != [] {
      StepExclusive(s, labels[0]);
      HoldingShrinks(s, labels[0], q);
      HoldingLater(Step(s, labels[0]), labels[1..], q);
    }
  }

  /** The processor neither loses its connection nor gives its session back. */
  predicate Stays(q: ProcessorId, labels: seq<Label>) {
    forall i | 0 <= i < |labels| ::
      && labels[i] != Expire(q) && labels[i] != Destroy(q)
      && !(labels[i].Receive? && labels[i].p == q && labels[i].packet.Disconnect?)
  }

  lemma {:induction false} HolderIsServed(
      s: State, labels: seq<Label>, p: ProcessorId, q: ProcessorId, x: Session, message: ControlPacket)
    requires Underway(s, labels, p, q, message) && Receives(s, q, x) && Stays(q, labels)
    requires p in Run(s, labels).processors && Todo(Run(s, labels), p) == {}
    ensures Delivered(s, labels, p, q) == CopyIf(x in Todo(s, p), message)
    decreases labels
  {
    if labels != [] {
      var l, s' := labels[0], Step(s, labels[0]);
      Onward(s, labels, p, q, message);
      StaysProcessor(s, l, q);
      OnlyTheHolderLetsGo(s, l, q);
      HolderIsServed(s', labels[1..], p, q, x, message);
    }
  }

  lemma PublishBegins(s: State, p: ProcessorId, packet: ControlPacket, q: ProcessorId)
    requires Exclusive(s) && Publishes(s, p, packet) && q in s.processors
    ensures var s1 := Step(s, Receive(p, packet));
      && Exclusive(s1) && PublishesOnly(s1, p, packet) && q in s1.processors
      && s1.processors[q].live == s.processors[q].live
      && (Holding(s.processors[q]).Some? ==> Holding(s1.processors[q]) == Holding(s.processors[q]))
  {
    StepExclusive(s, Receive(p, packet));
    PublishStarts(s, p, packet);
    StaysProcessor(s, Receive(p, packet), q);
    if Holding(s.processors[q]).Some? {
      OnlyTheHolderLetsGo(s, Receive(p, packet), q);
    }
  }

  lemma CopiesExact(s: State, labels: seq<Label>, p: ProcessorId, q: ProcessorId, message: ControlPacket)
    requires Underway(s, labels, p, q, message)
    ensures Delivered(s, labels, p, q) == CopyIf(exists i: nat :: ServedAt(s, labels, p, q, i), message)
    ensures forall i: nat | ServedAt(s, labels, p, q, i) :: labels[i].session in Todo(s, p)
  {
    AtMostOneCopy(s, labels, p, q, message);
    if Delivered(s, labels, p, q) != [] {
      var i := DeliveredAt(s, labels, p, q, message);
    }
    forall i: nat | ServedAt(s, labels, p, q, i)
      ensures Delivered(s, labels, p, q) != [] && labels[i].session in Todo(s, p)
    {
      ServedIsDelivered(s, labels, p, q, message, i);
    }
  }

  lemma HeldFromTheStart(s: State, labels: seq<Label>, p: ProcessorId, q: ProcessorId, message: ControlPacket)
    requires Underway(s, labels, p, q, message) && s.processors[q].status != Start
    requires Delivered(s, labels, p, q) != []
    ensures Holding(s.processors[q]).Some? && Holding(s.processors[q]).value in Todo(s, p)
  {
    var i := DeliveredAt(s, labels, p, q, message);
    ServedIsDelivered(s, labels, p, q, message, i);
    HoldingLater(s, labels[..i], q);
  }

  lemma PublishUnderway(s: State, p: ProcessorId, packet: ControlPacket, labels: seq<Label>, q: ProcessorId)
    requires Exclusive(s) && TreeOk(s) && Publishes(s, p, packet) && q in s.processors
    requires CanRun(Step(s, Receive(p, packet)), labels) && NoPacketFor(p, labels)
    requires !Run(Step(s, Receive(p, packet)), labels).fault
    ensures Underway(Step(s, Receive(p, packet)), labels, p, q, packet)
    ensures forall x | x in Todo(Step(s, Receive(p, packet)), p) ::
      Found(s, x, packet.topic) && (Clashless(s.registered) ==> Subscribed(s, x, packet.topic))
  {
    PublishBegins(s, p, packet, q);
    PublishStarts(s, p, packet);
    forall x | x in Todo(Step(s, Receive(p, packet)), p)
      ensures Found(s, x, packet.topic) && (Clashless(s.registered) ==> Subscribed(s, x, packet.topic))
    {
      Recipients(s, packet.topic, x);
    }
  }

  /** Publishing end to end, on the outboxes, for every connection and whatever the others do: it
      gets one copy exactly when `p` has sent one for the session the connection had at that
      moment, and none otherwise. Copies are sent only for sessions that were found, which have a
      matching filter when no two clash. */
  lemma PublishDeliversAtMostOnce(s: State, p: ProcessorId, packet: ControlPacket, labels: seq<Label>, q: ProcessorId)
    requires Exclusive(s) && TreeOk(s) && Publishes(s, p, packet) && q in s.processors
    requires CanRun(Step(s, Receive(p, packet)), labels) && NoPacketFor(p, labels)
    requires !Run(Step(s, Receive(p, packet)), labels).fault
    ensures var s1 := Step(s, Receive(p, packet));
      && Delivered(s1, labels, p, q) == CopyIf(exists i: nat :: ServedAt(s1, labels, p, q, i), packet)
      && forall i: nat | ServedAt(s1, labels, p, q, i) ::
           && Found(s, labels[i].session, packet.topic)
           && (Clashless(s.registered) ==> Subscribed(s, labels[i].session, packet.topic))
  {
    PublishUnderway(s, p, packet, labels, q);
    CopiesExact(Step(s, Receive(p, packet)), labels, p, q, packet);
  }

  /** Nobody else gets a copy: a connection that has sent its CONNECT gets one only if the session
      it had when the PUBLISH came was found - when no two filters clash, only if one of that
      session's filters matches - even if it leaves meanwhile. */
  lemma PublishDeliversToNobodyElse(s: State, p: ProcessorId, packet: ControlPacket, labels: seq<Label>,
      q: ProcessorId)
    requires Exclusive(s) && TreeOk(s) && Publishes(s, p, packet)
    requires q in s.processors && s.processors[q].status != Start
    requires CanRun(Step(s, Receive(p, packet)), labels) && NoPacketFor(p, labels)
    requires !Run(Step(s, Receive(p, packet)), labels).fault
    ensures var h := Holding(s.processors[q]);
      Delivered(Step(s, Receive(p, packet)), labels, p, q) != [] ==>
        && h.Some? && Found(s, h.value, packet.topic)
        && (Clashless(s.registered) ==> Subscribed(s, h.value, packet.topic))
  {
    PublishUnderway(s, p, packet, labels, q);
    HoldingShrinks(s, Receive(p, packet), q);
    if Delivered(Step(s, Receive(p, packet)), labels, p, q) != [] {
      HeldFromTheStart(Step(s, Receive(p, packet)), labels, p, q, packet);
    }
  }

  /** A live connection that keeps its session gets the copy exactly when that session was
      found, once `p` is through; without clashes, exactly when a filter registered for it
      matches: one copy, however many filters match. */
  lemma PublishDeliversToSubscribers(s: State, p: ProcessorId, packet: ControlPacket, labels: seq<Label>,
      q: ProcessorId)
    requires Exclusive(s) && TreeOk(s) && Publishes(s, p, packet)
    requires q in s.processors && s.processors[q].live && Holding(s.processors[q]).Some? && Stays(q, labels)
    requires CanRun(Step(s, Receive(p, packet)), labels) && NoPacketFor(p, labels)
    requires var s2 := Run(Step(s, Receive(p, packet)), labels);
      !s2.fault && p in s2.processors && !s2.processors[p].task.Publishing?
    ensures var x, copies := Holding(s.processors[q]).value, Delivered(Step(s, Receive(p, packet)), labels, p, q);
      && copies == CopyIf(Found(s, x, packet.topic), packet)
      && (Clashless(s.registered) ==> copies == CopyIf(Subscribed(s, x, packet.topic), packet))
  {
    var x := Holding(s.processors[q]).value;
    PublishBegins(s, p, packet, q);
    PublishStarts(s, p, packet);
    HolderIsServed(Step(s, Receive(p, packet)), labels, p, q, x, packet);
    Recipients(s, packet.topic, x);
  }

  // ---------------------------------------------------------------- what is sent

  predicate PacketOk(packet: ControlPacket) {
    && Serializers.Serializable(packet)
    && (packet == ConnAck(0, 0) || packet.Publish? || packet.SubAck? || packet.PingResp?)
  }

  predicate OutboxOk(s: State, q: ProcessorId)
    requires q in s.outbox
  {
    forall i | 0 <= i < |s.outbox[q]| :: PacketOk(s.outbox[q][i])
  }

  ghost predicate Outboxes(s: State) {
    forall q | q in s.outbox :: OutboxOk(s, q)
  }

  /** The outbox of `q` is as before or has one more packet, one that processors may send. */
  predicate Posts(s: State, s': State, q: ProcessorId)
    requires q in s.outbox
  {
    && q in s'.outbox
    && (s'.outbox[q] == s.outbox[q] || (
          && |s'.outbox[q]| == |s.outbox[q]| + 1 && s'.outbox[q][..|s.outbox[q]|] == s.outbox[q]
          && PacketOk(s'.outbox[q][|s.outbox[q]|])))
  }

  lemma ReceivePosts(s: State, p: ProcessorId, packet: ControlPacket, q: ProcessorId)
    requires Enabled(s, Receive(p, packet)) && q in s.outbox
    ensures Posts(s, Process(s, p, packet), q)
  {
  }

  lemma StepPosts(s: State, l: Label, q: ProcessorId)
    requires Exclusive(s) && Enabled(s, l) && !l.Receive? && q in s.outbox
    ensures Posts(s, Step(s, l), q)
  {
    assert l.Send? ==> ProcessorOk(s, l.p);
  }

  lemma PostsOk(s: State, s': State, q: ProcessorId)
    requires q in s.outbox && OutboxOk(s, q) && Posts(s, s', q)
    ensures OutboxOk(s', q)
  {
    forall i | 0 <= i < |s'.outbox[q]| ensures PacketOk(s'.outbox[q][i]) {
      if i < |s.outbox[q]| {
        assert s'.outbox[q][i] == s.outbox[q][i];
      }
    }
  }

  lemma StepOutboxes(s: State, l: Label)
    requires Exclusive(s) && Outboxes(s) && Enabled(s, l)
    ensures Outboxes(Step(s, l))
  {
    var s' := Step(s, l);
    assert s'.outbox.Keys == s.outbox.Keys;
    forall q | q in s'.outbox ensures OutboxOk(s', q) {
      assert OutboxOk(s, q);
      if l.Receive? {
        ReceivePosts(s, l.p, l.packet, q);
      } else {
        StepPosts(s, l, q);
      }
      PostsOk(s, s', q);
    }
  }

  /** Processors only send packets that can be serialized, and no CONNACK but the accepting one,
      even to a client whose session is in use. */
  lemma {:induction false} OnlySerializablePackets(s: State, labels: seq<Label>)
    requires Exclusive(s) && Outboxes(s) && CanRun(s, labels)
    ensures Outboxes(Run(s, labels))
    decreases labels
  {
    if labels != [] {
      StepExclusive(s, labels[0]);
      StepOutboxes(s, labels[0]);
      OnlySerializablePackets(Step(s, labels[0]), labels[1..]);
    }
  }

  lemma StartsEmpty(ps: set<ProcessorId>)
    ensures Exclusive(Init(ps)) && Outboxes(Init(ps))
  {
    forall q | q in Init(ps).outbox ensures OutboxOk(Init(ps), q) {
      assert Init(ps).outbox[q] == [];
    }
  }

  // ---------------------------------------------------------------- a client that comes back

  /** The client whose session is in use is told that it is accepted; then reading stops. */
  lemma InUseIsAccepted(s: State, p: ProcessorId, c: ConnectFields)
    requires Exclusive(s) && Enabled(s, Receive(p, Connect(c))) && s.processors[p].live
    requires s.processors[p].status == Start
    requires c.clientId in s.registry.entries && s.registry.entries[c.clientId].inUse
    ensures var s1 := Step(s, Receive(p, Connect(c)));
      && Enabled(s1, Assign(p)) && s1.registry == s.registry
      && var s2 := Step(s1, Assign(p));
         && s2.outbox[p] == s.outbox[p] + [ConnAck(0, 0)]
         && s2.processors[p].current == None && !s2.processors[p].reading
  {
  }

  /** The broker while a client is connected through the first of two processors. */
  function FirstVisit(id: Str): State {
    State(Registry(map[id := Entry(1, true)], map[1 := SessionState(id, 1, Some(1), [])], 2),
          map[1 := Processor(Connected, Some(1), Idle, true, true, false), 2 := NEW_PROCESSOR],
          [], EMPTY, map[1 := [ConnAck(0, 0)], 2 := []], {}, false)
  }

  /** The client has left again. */
  function Left(id: Str): State {
    State(Registry(map[id := Entry(1, false)], map[1 := SessionState(id, 1, None, [])], 2),
          map[1 := Processor(Disconnected, None, Idle, true, false, false), 2 := NEW_PROCESSOR],
          [], EMPTY, map[1 := [ConnAck(0, 0)], 2 := []], {}, false)
  }

  /** It is back on the second connection. */
  function SecondVisit(id: Str): State {
    State(Registry(map[id := Entry(1, true)], map[1 := SessionState(id, 1, Some(2), [])], 2),
          map[1 := Processor(Disconnected, None, Idle, true, false, false),
              2 := Processor(Connected, Some(1), Idle, true, true, false)],
          [], EMPTY, map[1 := [ConnAck(0, 0)], 2 := [ConnAck(0, 0)]], {}, false)
  }

  lemma RunTwo(s: State, a: Label, b: Label)
    requires Enabled(s, a) && Enabled(Step(s, a), b)
    ensures CanRun(s, [a, b]) && Run(s, [a, b]) == Step(Step(s, a), b)
  {
    var s' := Step(s, a);
    assert [a, b][1..] == [b] && [b][1..] == [];
    assert CanRun(s', [b]) && Run(s', [b]) == Run(Step(s', b), []);
  }

  lemma Connects(c: ConnectFields)
    ensures CanRun(Init({1, 2}), [Receive(1, Connect(c)), Assign(1)])
    ensures Run(Init({1, 2}), [Receive(1, Connect(c)), Assign(1)]) == FirstVisit(c.clientId)
  {
    var s0, goal := Init({1, 2}), FirstVisit(c.clientId);
    var s1 := Step(s0, Receive(1, Connect(c)));
    assert s1.registry == goal.registry;
    var s2 := Step(s1, Assign(1));
    assert s2.processors == goal.processors;
    assert s0.outbox[1] + [ConnAck(0, 0)] == goal.outbox[1];
    assert s2.outbox == goal.outbox;
    RunTwo(s0, Receive(1, Connect(c)), Assign(1));
  }

  lemma Leaves(id: Str)
    ensures CanRun(FirstVisit(id), [Receive(1, Disconnect), Reset(1)])
    ensures Run(FirstVisit(id), [Receive(1, Disconnect), Reset(1)]) == Left(id)
  {
    RunTwo(FirstVisit(id), Receive(1, Disconnect), Reset(1));
  }

  lemma ComesBack(c: ConnectFields)
    ensures CanRun(Left(c.clientId), [Receive(2, Connect(c)), Assign(2)])
    ensures Run(Left(c.clientId), [Receive(2, Connect(c)), Assign(2)]) == SecondVisit(c.clientId)
  {
    var s0, goal := Left(c.clientId), SecondVisit(c.clientId);
    var s1 := Step(s0, Receive(2, Connect(c)));
    assert s1.registry == goal.registry;
    var s2 := Step(s1, Assign(2));
    assert s2.processors == goal.processors;
    assert s0.outbox[2] + [ConnAck(0, 0)] == goal.outbox[2];
    assert s2.outbox == goal.outbox;
    RunTwo(s0, Receive(2, Connect(c)), Assign(2));
  }

  lemma Subscribes(id: Str, f: TopicFilter)
    ensures CanRun(SecondVisit(id), [Receive(2, Subscribe(0, [f])), Register(2, 0)])
    ensures var s := Run(SecondVisit(id), [Receive(2, Subscribe(0, [f])), Register(2, 0)]);
      && 1 in s.registry.sessions && s.registry.sessions[1].subscriptions == [f] && !s.fault
      && s.registered == [Subscription(Levels(f.filter), NULL)]
  {
    RunTwo(SecondVisit(id), Receive(2, Subscribe(0, [f])), Register(2, 0));
  }

  lemma {:induction false} RunConcat(s: State, a: seq<Label>, b: seq<Label>)
    requires CanRun(s, a) && CanRun(Run(s, a), b)
    ensures CanRun(s, a + b) && Run(s, a + b) == Run(Run(s, a), b)
    decreases a
  {
    if a == [] {
      assert a + b == b;
    } else {
      RunConcat(Step(s, a[0]), a[1..], b);
      assert (a + b)[1..] == a[1..] + b;
    }
  }

  /** A client that comes back over another connection is told that its SUBSCRIBE succeeded,
      its session stores the filter, but no topic at all reaches it: the filter is registered
      for the null session, which the topics that match it find instead. */
  lemma ReturningClientIsNotServed(c: ConnectFields, f: TopicFilter, topic: Str) returns (labels: seq<Label>)
    requires Accepted(f.filter)
    ensures CanRun(Init({1, 2}), labels)
    ensures var s := Run(Init({1, 2}), labels);
      && 1 in s.registry.sessions && f in s.registry.sessions[1].subscriptions && !s.fault
      && 1 !in TopicMatch(s.tree, Levels(topic)).sessions
      && (WildcardFree(topic) ==>
            (NULL in TopicMatch(s.tree, Levels(topic)).sessions <==> FilterMatches(Levels(f.filter), Levels(topic))))
  {
    var one, two := [Receive(1, Connect(c)), Assign(1)], [Receive(1, Disconnect), Reset(1)];
    var three, four := [Receive(2, Connect(c)), Assign(2)], [Receive(2, Subscribe(0, [f])), Register(2, 0)];
    Connects(c);
    Leaves(c.clientId);
    ComesBack(c);
    Subscribes(c.clientId, f);
    RunConcat(Init({1, 2}), one, two);
    RunConcat(Init({1, 2}), one + two, three);
    RunConcat(Init({1, 2}), one + two + three, four);
    labels := one + two + three + four;
    NullServed({1, 2}, labels, f, topic);
  }

  lemma NullServed(ps: set<ProcessorId>, labels: seq<Label>, f: TopicFilter, topic: Str)
    requires CanRun(Init(ps), labels) && Run(Init(ps), labels).registered == [Subscription(Levels(f.filter), NULL)]
    requires Accepted(f.filter)
    ensures var s := Run(Init(ps), labels);
      && 1 !in TopicMatch(s.tree, Levels(topic)).sessions
      && (WildcardFree(topic) ==>
            (NULL in TopicMatch(s.tree, Levels(topic)).sessions <==> FilterMatches(Levels(f.filter), Levels(topic))))
  {
    Reachable(ps, labels);
    var s := Run(Init(ps), labels);
    if 1 in TopicMatch(s.tree, Levels(topic)).sessions {
      var path := WalkFindsStored(s.tree, Levels(topic), 0, true, 1);
      AddAllHolds(s.registered, path, 1);
      assert false;
    }
    if WildcardFree(topic) {
      AcceptedIsAddable(f.filter);
      NameLevels(topic);
      assert s.registered == [s.registered[0]];
      assert Clashless(s.registered);
      SharedCursorRefinesFlatList(s.registered, Levels(topic), NULL);
      assert Subscription(Levels(f.filter), NULL) in s.registered;
    }
  }
}
