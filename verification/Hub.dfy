/**
 * The WebSocket hub (hub.go) as interleaved steps of the hub goroutine, the emitters and
 * each client's read and write pump. A broadcast is one step per client, so write pumps
 * run in between. Queued items carry their position in the hub's processing order.
 */
module Hubs {

  const BROADCAST_SLOTS := 64
  const CLIENT_SLOTS := 32

  datatype Item = Item(pos: nat, msg: string)

  /** The handler goroutine: blocked on register, in readPump, blocked on unregister, gone. */
  datatype Reader = Registering | Reading | Leaving | Gone

  datatype Writer = Unstarted | Writing | Finished

  datatype Client = Client(
    reader: Reader,
    writer: Writer,
    queue: seq<Item>,   // the buffered channel `send`
    closed: bool,
    taken: seq<Item>,   // received by writePump, in order
    lost: bool,         // the write of the last one taken failed
    drops: set<nat>,    // positions discarded because the buffer was full
    joined: nat,        // length of the history at registration
    left: nat)          // length of the history at unregistration

  datatype HubPc = Idle | Sending(todo: set<nat>)

  datatype State = State(
    clients: set<nat>,
    conns: map<nat, Client>,
    broadcast: seq<string>,
    pc: HubPc,
    history: seq<string>,    // events taken from `broadcast`, in order
    accepted: seq<string>,
    discarded: seq<string>,
    emitted: seq<string>,
    panicked: bool)

  const INIT := State({}, map[], [], Idle, [], [], [], [], false)

  datatype Action =
    | Connect(c: nat)
    | Register(c: nat)
    | ReadFails(c: nat)
    | Unregister(c: nat)
    | Emit(msg: string)
    | Take
    | Offer(c: nat)
    | Done
    | Deliver(c: nat)
    | DeliverFails(c: nat)
    | SeeClosed(c: nat)
    | PingFails(c: nat)

  predicate Enabled(a: Action, s: State) {
    && !s.panicked
    && match a {
         case Connect(c) => c !in s.conns
         case Register(c) => s.pc.Idle? && c in s.conns && s.conns[c].reader.Registering?
         case ReadFails(c) => c in s.conns && s.conns[c].reader.Reading?
         case Unregister(c) => s.pc.Idle? && c in s.conns && s.conns[c].reader.Leaving?
         case Emit(_) => true
         case Take => s.pc.Idle? && s.broadcast != []
         case Offer(c) => s.pc.Sending? && c in s.pc.todo && c in s.conns && s.history != []
         case Done => s.pc.Sending? && s.pc.todo == {}
         case Deliver(c) => c in s.conns && s.conns[c].writer.Writing? && s.conns[c].queue != []
         case DeliverFails(c) => c in s.conns && s.conns[c].writer.Writing? && s.conns[c].queue != []
         case SeeClosed(c) => c in s.conns && s.conns[c].writer.Writing? && s.conns[c].queue == [] && s.conns[c].closed
         case PingFails(c) => c in s.conns && s.conns[c].writer.Writing?
       }
  }

  /** The non-blocking send of the broadcast loop; sending on a closed channel panics. */
  function Offered(k: Client, item: Item): Client {
    if |k.queue| < CLIENT_SLOTS then k.(queue := k.queue + [item])
    else k.(drops := k.drops + {item.pos})
  }

  function TakeHead(k: Client): Client
    requires k.queue != []
  {
    k.(queue := k.queue[1..], taken := k.taken + [k.queue[0]])
  }

  function Apply(a: Action, s: State): State
    requires Enabled(a, s)
  {
    match a {
      case Connect(c) =>
        s.(conns := s.conns[c := Client(Registering, Unstarted, [], false, [], false, {}, 0, 0)])
      case Register(c) =>
        s.(clients := s.clients + {c},
           conns := s.conns[c := s.conns[c].(reader := Reading, writer := Writing, joined := |s.history|)])
      case ReadFails(c) =>
        s.(conns := s.conns[c := s.conns[c].(reader := Leaving)])
      case Unregister(c) =>
        var gone := s.conns[c].(reader := Gone);
        if c !in s.clients then s.(conns := s.conns[c := gone])
        else if gone.closed then s.(panicked := true)
        else s.(clients := s.clients - {c}, conns := s.conns[c := gone.(closed := true, left := |s.history|)])
      case Emit(msg) =>
        var t := s.(emitted := s.emitted + [msg]);
        if |s.broadcast| < BROADCAST_SLOTS
        then t.(broadcast := s.broadcast + [msg], accepted := s.accepted + [msg])
        else t.(discarded := s.discarded + [msg])
      case Take =>
        s.(pc := Sending(s.clients), history := s.history + [s.broadcast[0]], broadcast := s.broadcast[1..])
      case Offer(c) =>
        var at := |s.history| - 1;
        if s.conns[c].closed then s.(panicked := true)
        else s.(pc := Sending(s.pc.todo - {c}), conns := s.conns[c := Offered(s.conns[c], Item(at, s.history[at]))])
      case Done =>
        s.(pc := Idle)
      case Deliver(c) =>
        s.(conns := s.conns[c := TakeHead(s.conns[c])])
      case DeliverFails(c) =>
        s.(conns := s.conns[c := TakeHead(s.conns[c]).(writer := Finished, lost := true)])
      case SeeClosed(c) =>
        s.(conns := s.conns[c := s.conns[c].(writer := Finished)])
      case PingFails(c) =>
        s.(conns := s.conns[c := s.conns[c].(writer := Finished)])
    }
  }

  // ---- The invariant ---------------------------------------------------------

  /** Everything the client was sent: what its write pump took, then what is queued. */
  function Seen(k: Client): seq<Item> {
    k.taken + k.queue
  }

  predicate Increasing(xs: seq<Item>) {
    forall i, j :: 0 <= i < j < |xs| ==> xs[i].pos < xs[j].pos
  }

  predicate HasPos(xs: seq<Item>, p: nat) {
    exists i :: 0 <= i < |xs| && xs[i].pos == p
  }

  predicate WasRegistered(k: Client) {
    !k.reader.Registering?
  }

  /** The broadcasts the client has been offered so far end before this position. */
  function Upto(s: State, c: nat): int
    requires c in s.conns
  {
    if c !in s.clients then s.conns[c].left
    else if s.pc.Sending? && c in s.pc.todo then |s.history| - 1
    else |s.history|
  }

  /** The client got or dropped each position of its membership, in order, with its event. */
  predicate StreamOk(k: Client, history: seq<string>, upto: int) {
    && k.joined <= upto <= |history|
    && Increasing(Seen(k))
    && (forall i :: 0 <= i < |Seen(k)| ==>
          k.joined <= Seen(k)[i].pos < upto && Seen(k)[i].msg == history[Seen(k)[i].pos])
    && (forall p :: p in k.drops ==> k.joined <= p < upto && !HasPos(Seen(k), p))
    && (forall p :: k.joined <= p < upto ==> p in k.drops || HasPos(Seen(k), p))
  }

  /** A registered client is in the set iff its channel is open, until its handler is gone. */
  predicate ClientOk(s: State, c: nat)
    requires c in s.conns
  {
    var k := s.conns[c];
    && |k.queue| <= CLIENT_SLOTS
    && (c in s.clients <==> k.reader.Reading? || k.reader.Leaving?)
    && (k.closed <==> k.reader.Gone?)
    && (k.reader.Registering? <==> k.writer.Unstarted?)
    && (!WasRegistered(k) ==> Seen(k) == [] && k.drops == {} && !k.lost)
    && (k.lost ==> k.taken != [] && k.writer.Finished?)
    && (WasRegistered(k) ==> StreamOk(k, s.history, Upto(s, c)))
  }

  predicate QueuesOk(s: State) {
    && |s.broadcast| <= BROADCAST_SLOTS
    && s.accepted == s.history + s.broadcast
    && multiset(s.emitted) == multiset(s.accepted) + multiset(s.discarded)
  }

  predicate Inv(s: State) {
    && !s.panicked
    && QueuesOk(s)
    && s.clients <= s.conns.Keys
    && (s.pc.Sending? ==> s.pc.todo <= s.clients && s.history != [])
    && (forall c :: c in s.conns ==> ClientOk(s, c))
  }

  // ---- Every step keeps it ---------------------------------------------------

  lemma {:induction false} InitInv()
    ensures Inv(INIT)
  {
  }

  /** A longer history does not disturb what a client has. */
  lemma {:induction false} StreamExtends(k: Client, history: seq<string>, more: seq<string>, upto: int)
    requires StreamOk(k, history, upto)
    ensures StreamOk(k, history + more, upto)
  {
  }

  lemma {:induction false} EmptyStream(k: Client, history: seq<string>)
    requires Seen(k) == [] && k.drops == {} && k.joined == |history|
    ensures StreamOk(k, history, |history|)
  {
  }

  lemma {:induction false} OfferStream(k: Client, history: seq<string>)
    requires history != [] && StreamOk(k, history, |history| - 1)
    ensures StreamOk(Offered(k, Item(|history| - 1, history[|history| - 1])), history, |history|)
  {
    var at := |history| - 1;
    var item := Item(at, history[at]);
    if |k.queue| < CLIENT_SLOTS {
      assert Seen(Offered(k, item)) == Seen(k) + [item];
      AppendedPositions(Seen(k), item);
    }
  }

  lemma {:induction false} AppendedPositions(xs: seq<Item>, item: Item)
    ensures forall p :: HasPos(xs + [item], p) <==> HasPos(xs, p) || p == item.pos
  {
    var ys := xs + [item];
    assert ys[|xs|] == item;
    forall p | HasPos(xs, p)
      ensures HasPos(ys, p)
    {
      var i :| 0 <= i < |xs| && xs[i].pos == p;
      assert ys[i].pos == p;
    }
  }

  lemma {:induction false} TakeKeepsStream(k: Client, history: seq<string>, upto: int)
    requires k.queue != [] && StreamOk(k, history, upto)
    ensures StreamOk(TakeHead(k), history, upto) && Seen(TakeHead(k)) == Seen(k)
  {
    assert Seen(TakeHead(k)) == Seen(k);
  }

  lemma {:induction false} EmitKeepsQueues(s: State, msg: string)
    requires QueuesOk(s) && Enabled(Emit(msg), s)
    ensures QueuesOk(Apply(Emit(msg), s))
  {
    var t := Apply(Emit(msg), s);
    assert s.history + (s.broadcast + [msg]) == s.history + s.broadcast + [msg];
  }

  lemma {:induction false} TakeKeepsQueues(s: State)
    requires QueuesOk(s) && Enabled(Take, s)
    ensures QueuesOk(Apply(Take, s))
  {
    assert s.broadcast == [s.broadcast[0]] + s.broadcast[1..];
  }

  /** Clients whose connection and membership did not change stay as they were. */
  lemma {:induction false} OthersKept(s: State, t: State, c: nat)
    requires Inv(s) && c in s.conns && c in t.conns && t.conns[c] == s.conns[c]
    requires t.history == s.history && (c in t.clients <==> c in s.clients) && Upto(t, c) == Upto(s, c)
    ensures ClientOk(t, c)
  {
  }

  lemma {:induction false} StepKeepsInv(a: Action, s: State)
    requires Inv(s) && Enabled(a, s)
    ensures Inv(Apply(a, s))
  {
    var t := Apply(a, s);
    match a {
      case Emit(msg) =>
        EmitKeepsQueues(s, msg);
        forall c | c in t.conns ensures ClientOk(t, c) { OthersKept(s, t, c); }
      case Take =>
        TakeKeepsQueues(s);
        forall c | c in t.conns ensures ClientOk(t, c) {
          if WasRegistered(s.conns[c]) {
            StreamExtends(s.conns[c], s.history, [s.broadcast[0]], Upto(s, c));
          }
        }
      case Done =>
        forall c | c in t.conns ensures ClientOk(t, c) { OthersKept(s, t, c); }
      case Connect(c) => OneClient(a, s, c);
      case Register(c) => OneClient(a, s, c);
      case ReadFails(c) => OneClient(a, s, c);
      case Unregister(c) => OneClient(a, s, c);
      case Offer(c) => OneClient(a, s, c);
      case Deliver(c) => OneClient(a, s, c);
      case DeliverFails(c) => OneClient(a, s, c);
      case SeeClosed(c) => OneClient(a, s, c);
      case PingFails(c) => OneClient(a, s, c);
    }
  }

  lemma {:induction false} OneClient(a: Action, s: State, c: nat)
    requires Inv(s) && Enabled(a, s)
    requires !a.Emit? && !a.Take? && !a.Done? && a.c == c
    ensures Inv(Apply(a, s))
  {
    var t := Apply(a, s);
    ClientStep(a, s, c);
    assert t.clients <= t.conns.Keys;
    forall d | d in t.conns ensures ClientOk(t, d) {
      if d != c {
        OthersKept(s, t, d);
      }
    }
  }

  lemma {:induction false} ClientStep(a: Action, s: State, c: nat)
    requires Inv(s) && Enabled(a, s)
    requires !a.Emit? && !a.Take? && !a.Done? && a.c == c
    ensures var t := Apply(a, s); !t.panicked && c in t.conns && ClientOk(t, c)
  {
    var t := Apply(a, s);
    if c in s.conns {
      assert ClientOk(s, c);
      match a {
        case Register(_) => EmptyStream(t.conns[c], s.history);
        case Offer(_) => OfferStep(s, c);
        case Deliver(_) => TakeStep(a, s, c);
        case DeliverFails(_) => TakeStep(a, s, c);
        case _ =>
      }
    }
  }

  lemma {:induction false} OfferStep(s: State, c: nat)
    requires Inv(s) && Enabled(Offer(c), s)
    ensures var t := Apply(Offer(c), s); !t.panicked && c in t.conns && ClientOk(t, c)
  {
    assert ClientOk(s, c);
    OfferStream(s.conns[c], s.history);
  }

  lemma {:induction false} TakeStep(a: Action, s: State, c: nat)
    requires Inv(s) && Enabled(a, s) && (a == Deliver(c) || a == DeliverFails(c))
    ensures var t := Apply(a, s); !t.panicked && c in t.conns && ClientOk(t, c)
  {
    assert ClientOk(s, c);
    TakeKeepsStream(s.conns[c], s.history, Upto(s, c));
  }

  // ---- Runs ------------------------------------------------------------------

  predicate Run(ss: seq<State>, acts: seq<Action>) {
    && |ss| == |acts| + 1 && ss[0] == INIT
    && forall i :: 0 <= i < |acts| ==> Enabled(acts[i], ss[i]) && ss[i + 1] == Apply(acts[i], ss[i])
  }

  /** In every interleaving: no panic, bounded queues, open channels, accounted events. */
  lemma {:induction false} AlwaysSafe(ss: seq<State>, acts: seq<Action>, k: nat)
    requires Run(ss, acts) && k < |ss|
    ensures Inv(ss[k])
  {
    if k == 0 {
      InitInv();
    } else {
      AlwaysSafe(ss, acts, k - 1);
      StepKeepsInv(acts[k - 1], ss[k - 1]);
    }
  }

  /** A closed channel is never sent to nor closed again; its queue only drains. */
  lemma {:induction false} ClosedChannelUntouched(a: Action, s: State, c: nat)
    requires Inv(s) && Enabled(a, s) && c in s.conns && s.conns[c].closed
    ensures a != Offer(c) && a != Unregister(c)
    ensures c in Apply(a, s).conns && Apply(a, s).conns[c].closed
    ensures |Apply(a, s).conns[c].queue| <= |s.conns[c].queue|
  {
    assert ClientOk(s, c);
  }

  /** What a client has been sent only ever grows at the end. */
  lemma {:induction false} StreamGrows(a: Action, s: State, c: nat)
    requires Inv(s) && Enabled(a, s) && c in s.conns
    ensures c in Apply(a, s).conns && Seen(s.conns[c]) <= Seen(Apply(a, s).conns[c])
  {
    if a == Deliver(c) || a == DeliverFails(c) {
      TakeHeadSeen(s.conns[c]);
    } else if a == Offer(c) {
      assert ClientOk(s, c);
      OfferedSeen(s.conns[c], Item(|s.history| - 1, s.history[|s.history| - 1]));
    }
  }

  lemma {:induction false} TakeHeadSeen(k: Client)
    requires k.queue != []
    ensures Seen(TakeHead(k)) == Seen(k)
  {
  }

  lemma {:induction false} OfferedSeen(k: Client, item: Item)
    ensures Seen(k) <= Seen(Offered(k, item))
  {
    if |k.queue| < CLIENT_SLOTS {
      assert Seen(Offered(k, item)) == Seen(k) + [item];
    }
  }

  lemma {:induction false} NewDrop(a: Action, s: State, c: nat, p: nat)
    requires Inv(s) && Enabled(a, s) && c in Apply(a, s).conns && p in Apply(a, s).conns[c].drops
    requires c in s.conns ==> p !in s.conns[c].drops
    ensures a == Offer(c) && |s.history| == p + 1
    ensures c in s.conns && |s.conns[c].queue| == CLIENT_SLOTS
  {
    if c in s.conns {
      assert ClientOk(s, c);
    }
  }

  /** A position is dropped only by a broadcast step that found the client's buffer full. */
  lemma {:induction false} DroppedOnlyWhenFull(ss: seq<State>, acts: seq<Action>, k: nat, c: nat,
        p: nat) returns (i: nat)
    requires Run(ss, acts) && k < |ss| && c in ss[k].conns && p in ss[k].conns[c].drops
    ensures i < k && acts[i] == Offer(c) && |ss[i].history| == p + 1
    ensures c in ss[i].conns && |ss[i].conns[c].queue| == 32
  {
    assert k > 0;
    AlwaysSafe(ss, acts, k - 1);
    if c in ss[k - 1].conns && p in ss[k - 1].conns[c].drops {
      i := DroppedOnlyWhenFull(ss, acts, k - 1, c, p);
    } else {
      i := k - 1;
      NewDrop(acts[i], ss[i], c, p);
    }
  }

  lemma {:induction false} NewDiscard(a: Action, s: State, j: nat)
    requires Inv(s) && Enabled(a, s) && j < |Apply(a, s).discarded|
    ensures s.discarded <= Apply(a, s).discarded
    ensures j >= |s.discarded| ==>
              a == Emit(Apply(a, s).discarded[j]) && |s.broadcast| == 64 && j == |s.discarded|
  {
  }

  /** An event is discarded only by an Emit that found 64 events waiting for the hub. */
  lemma {:induction false} DiscardedOnlyWhenFull(ss: seq<State>, acts: seq<Action>, k: nat, j: nat) returns (i: nat)
    requires Run(ss, acts) && k < |ss| && j < |ss[k].discarded|
    ensures i < k && acts[i] == Emit(ss[k].discarded[j]) && |ss[i].broadcast| == 64 && |ss[i].discarded| == j
  {
    assert k > 0;
    AlwaysSafe(ss, acts, k - 1);
    NewDiscard(acts[k - 1], ss[k - 1], j);
    if j < |ss[k - 1].discarded| {
      i := DiscardedOnlyWhenFull(ss, acts, k - 1, j);
    } else {
      i := k - 1;
    }
  }

  /** With fewer than 64 waiting, an emitted event is queued behind them. */
  lemma {:induction false} AcceptedWhenRoom(s: State, msg: string)
    requires Enabled(Emit(msg), s) && |s.broadcast| < 64
    ensures Apply(Emit(msg), s).broadcast == s.broadcast + [msg] && Apply(Emit(msg), s).discarded == s.discarded
  {
  }

  // ---- Delivery of one broadcast ---------------------------------------------

  /** During the broadcast of the item: the client still has room, or has it as its last item. */
  predicate Reaching(s: State, c: nat, item: Item) {
    && s.pc.Sending? && c in s.clients && c in s.conns
    && s.history != [] && item == Item(|s.history| - 1, s.history[|s.history| - 1])
    && if c in s.pc.todo then |s.conns[c].queue| < 32 else LastSeen(s.conns[c], item)
  }

  predicate LastSeen(k: Client, item: Item) {
    Seen(k) != [] && Seen(k)[|Seen(k)| - 1] == item
  }

  lemma {:induction false} OfferedLast(k: Client, item: Item)
    requires |k.queue| < 32
    ensures LastSeen(Offered(k, item), item)
  {
    assert Seen(Offered(k, item)) == Seen(k) + [item];
  }

  lemma {:induction false} OfferReaches(s: State, c: nat, item: Item)
    requires Enabled(Offer(c), s) && !s.conns[c].closed && Reaching(s, c, item)
    ensures Reaching(Apply(Offer(c), s), c, item)
  {
    OfferedLast(s.conns[c], item);
  }

  lemma {:induction false} DeliverReaches(a: Action, s: State, c: nat, item: Item)
    requires Enabled(a, s) && (a == Deliver(c) || a == DeliverFails(c)) && Reaching(s, c, item)
    ensures Reaching(Apply(a, s), c, item)
  {
    TakeHeadSeen(s.conns[c]);
  }

  lemma {:induction false} OthersReach(a: Action, s: State, c: nat, item: Item)
    requires Enabled(a, s) && Reaching(s, c, item)
    requires a != Done && a != Offer(c) && a != Deliver(c) && a != DeliverFails(c)
    requires forall d :: a == Offer(d) && d in s.conns ==> !s.conns[d].closed
    ensures Reaching(Apply(a, s), c, item)
  {
  }

  lemma {:induction false} ReachingStep(a: Action, s: State, c: nat, item: Item)
    requires Inv(s) && Enabled(a, s) && a != Done && Reaching(s, c, item)
    ensures Reaching(Apply(a, s), c, item)
  {
    if a.Offer? {
      assert ClientOk(s, a.c);
    }
    if a == Offer(c) {
      OfferReaches(s, c, item);
    } else if a == Deliver(c) || a == DeliverFails(c) {
      DeliverReaches(a, s, c, item);
    } else {
      OthersReach(a, s, c, item);
    }
  }

  lemma {:induction false} TakeReaches(s: State, c: nat)
    requires Enabled(Take, s) && c in s.clients && c in s.conns && |s.conns[c].queue| < 32
    ensures Reaching(Apply(Take, s), c, Item(|s.history|, s.broadcast[0]))
  {
  }

  lemma {:induction false} RunStep(ss: seq<State>, acts: seq<Action>, i: nat)
    requires Run(ss, acts) && i < |acts|
    ensures Enabled(acts[i], ss[i]) && ss[i + 1] == Apply(acts[i], ss[i])
  {
  }

  lemma {:induction false} ReachingLater(s: State, t: State, a: Action, c: nat, item: Item)
    ensures Inv(s) && Enabled(a, s) && t == Apply(a, s) && a != Done && Reaching(s, c, item) ==> Reaching(t, c, item)
  {
    if Inv(s) && Enabled(a, s) && t == Apply(a, s) && a != Done && Reaching(s, c, item) {
      ReachingStep(a, s, c, item);
    }
  }

  lemma {:induction false} SafeStep(ss: seq<State>, acts: seq<Action>, i: nat)
    requires Run(ss, acts) && i < |acts|
    ensures Inv(ss[i]) && Enabled(acts[i], ss[i]) && ss[i + 1] == Apply(acts[i], ss[i])
  {
    AlwaysSafe(ss, acts, i);
    RunStep(ss, acts, i);
  }

  lemma {:induction false} ReachingAt(ss: seq<State>, acts: seq<Action>, i: nat, c: nat, item: Item)
    requires i < |acts| && i + 1 < |ss|
    ensures Reaching(ss[i + 1], c, item) || !(Run(ss, acts) && acts[i] != Done && Reaching(ss[i], c, item))
  {
    if Run(ss, acts) {
      SafeStep(ss, acts, i);
      ReachingLater(ss[i], ss[i + 1], acts[i], c, item);
    }
  }

  /** From the state after step i up to state j no step ends the broadcast. */
  predicate NoDone(acts: seq<Action>, i: nat, j: nat)
    requires j <= |acts|
  {
    j <= i + 1 || (acts[j - 1] != Done && NoDone(acts, i, j - 1))
  }

  lemma {:induction false} NoDoneBetween(acts: seq<Action>, i: nat, j: nat)
    requires j <= |acts| && forall m :: i < m < j ==> acts[m] != Done
    ensures NoDone(acts, i, j)
    decreases j
  {
    if j > i + 1 {
      NoDoneBetween(acts, i, j - 1);
    }
  }

  lemma {:induction false} ReachingRun(ss: seq<State>, acts: seq<Action>, i: nat, j: nat, c: nat, item: Item)
    requires i < j < |ss| && |ss| == |acts| + 1 && NoDone(acts, i, j)
    ensures Reaching(ss[j], c, item) || !Run(ss, acts) || !Reaching(ss[i + 1], c, item)
    decreases j
  {
    if j > i + 1 {
      ReachingRun(ss, acts, i, j - 1, c, item);
      ReachingAt(ss, acts, j - 1, c, item);
    }
  }

  /**
   * Once the broadcast of an event has ended, the event is the last item sent to every client
   * that was registered when it was taken and had fewer than 32 items queued then, whatever
   * was interleaved.
   */
  lemma {:induction false} BroadcastReaches(ss: seq<State>, acts: seq<Action>, i: nat, j: nat, c: nat)
    requires Run(ss, acts) && i < j < |acts| && acts[i] == Take && acts[j] == Done
    requires forall m :: i < m < j ==> acts[m] != Done
    requires c in ss[i].clients && c in ss[i].conns && |ss[i].conns[c].queue| < 32
    ensures ss[i].broadcast != [] && c in ss[j + 1].conns
    ensures LastSeen(ss[j + 1].conns[c], Item(|ss[i].history|, ss[i].broadcast[0]))
  {
    RunStep(ss, acts, i);
    TakeReaches(ss[i], c);
    NoDoneBetween(acts, i, j);
    ReachingRun(ss, acts, i, j, c, Item(|ss[i].history|, ss[i].broadcast[0]));
    RunStep(ss, acts, j);
  }

  /** Any two clients see the events they have in common in the same order. */
  lemma {:induction false} CommonOrder(s: State, a: nat, b: nat, i: nat, j: nat, m: nat, n: nat)
    requires Inv(s) && a in s.conns && b in s.conns
    requires i < j < |Seen(s.conns[a])| && m < |Seen(s.conns[b])| && n < |Seen(s.conns[b])|
    requires Seen(s.conns[a])[i].pos == Seen(s.conns[b])[m].pos
    requires Seen(s.conns[a])[j].pos == Seen(s.conns[b])[n].pos
    ensures m < n
    ensures Seen(s.conns[a])[i] == Seen(s.conns[b])[m] && Seen(s.conns[a])[j] == Seen(s.conns[b])[n]
  {
    assert ClientOk(s, a) && ClientOk(s, b);
  }

  /** What the client's browser got: all that was taken, but for a last failed write. */
  function Delivered(k: Client): seq<Item> {
    if k.lost && k.taken != [] then k.taken[..|k.taken| - 1] else k.taken
  }

  lemma {:induction false} DeliveredPrefix(k: Client)
    ensures Delivered(k) <= Seen(k)
  {
  }

  /** A client that dropped nothing has exactly the history since its registration. */
  lemma {:induction false} UndroppedIsContiguous(k: Client, history: seq<string>, upto: int, i: nat)
    requires StreamOk(k, history, upto) && k.drops == {} && i < upto - k.joined
    ensures i < |Seen(k)| && Seen(k)[i] == Item(k.joined + i, history[k.joined + i])
  {
    var xs := Seen(k);
    assert HasPos(xs, k.joined + i);
    var m :| 0 <= m < |xs| && xs[m].pos == k.joined + i;
    if i > 0 {
      UndroppedIsContiguous(k, history, upto, i - 1);
      assert m >= i;
    }
    assert xs[i].pos <= xs[m].pos;
  }

  /** The hub answers: with a register, unregister, broadcast or send pending it can step. */
  predicate HubPending(s: State) {
    || s.pc.Sending? || s.broadcast != []
    || exists c :: c in s.conns && (s.conns[c].reader.Registering? || s.conns[c].reader.Leaving?)
  }

  predicate HubAction(a: Action) {
    a.Register? || a.Unregister? || a.Take? || a.Offer? || a.Done?
  }

  lemma {:induction false} HubNeverStuck(s: State) returns (a: Action)
    requires Inv(s) && HubPending(s)
    ensures HubAction(a) && Enabled(a, s)
  {
    if s.pc.Sending? {
      if s.pc.todo == {} {
        a := Done;
      } else {
        var c :| c in s.pc.todo;
        a := Offer(c);
      }
    } else if s.broadcast != [] {
      a := Take;
    } else {
      var c :| c in s.conns && (s.conns[c].reader.Registering? || s.conns[c].reader.Leaving?);
      a := if s.conns[c].reader.Registering? then Register(c) else Unregister(c);
    }
  }

  /** Hub steps left until the hub is back in its select. */
  function Rank(s: State): nat {
    if s.pc.Idle? then 0 else 1 + |s.pc.todo|
  }

  /** A broadcast ends after finitely many hub steps whatever the other goroutines do. */
  lemma {:induction false} BroadcastEnds(a: Action, s: State)
    requires Inv(s) && Enabled(a, s) && s.pc.Sending?
    ensures HubAction(a) ==> Rank(Apply(a, s)) < Rank(s)
    ensures !HubAction(a) ==> Apply(a, s).pc == s.pc
  {
    if a.Offer? {
      assert ClientOk(s, a.c);
      assert a.c in s.pc.todo;
      assert |s.pc.todo - {a.c}| == |s.pc.todo| - 1;
    }
  }

  // ---- The hub object --------------------------------------------------------

  ghost predicate Chain(acts: seq<Action>, s: State, t: State) {
    if acts == [] then s == t else Enabled(acts[0], s) && Chain(acts[1..], Apply(acts[0], s), t)
  }

  lemma {:induction false} ChainAppend(acts: seq<Action>, s: State, t: State, a: Action)
    requires Chain(acts, s, t) && Enabled(a, t)
    ensures Chain(acts + [a], s, Apply(a, t))
  {
    if acts == [] {
      assert acts + [a] == [a] && [a][1..] == [];
    } else {
      assert (acts + [a])[1..] == acts[1..] + [a];
      ChainAppend(acts[1..], Apply(acts[0], s), t, a);
    }
  }

  /** The cases of the hub's select and Emit, as methods that update the hub's fields. */
  class Hub {
    var clients: set<nat>
    var conns: map<nat, Client>
    var broadcast: seq<string>
    ghost var pc: HubPc
    var history: seq<string>  // numbers the broadcasts
    ghost var accepted: seq<string>
    ghost var discarded: seq<string>
    ghost var emitted: seq<string>

    ghost function St(): State
      reads this
    {
      State(clients, conns, broadcast, pc, history, accepted, discarded, emitted, false)
    }

    constructor ()
      ensures St() == INIT
    {
      clients, conns, broadcast, pc := {}, map[], [], Idle;
      history, accepted, discarded, emitted := [], [], [], [];
    }

    method EmitEvent(msg: string)
      modifies this
      ensures St() == Apply(Emit(msg), old(St()))
    {
      emitted := emitted + [msg];
      if |broadcast| < BROADCAST_SLOTS {
        broadcast := broadcast + [msg];
        accepted := accepted + [msg];
      } else {
        discarded := discarded + [msg];
      }
    }

    method OnRegister(c: nat)
      requires Enabled(Register(c), St())
      modifies this
      ensures St() == Apply(Register(c), old(St()))
    {
      clients := clients + {c};
      conns := conns[c := conns[c].(reader := Reading, writer := Writing, joined := |history|)];
    }

    method OnUnregister(c: nat)
      requires Inv(St()) && Enabled(Unregister(c), St())
      modifies this
      ensures St() == Apply(Unregister(c), old(St()))
    {
      assert ClientOk(St(), c);
      conns := conns[c := conns[c].(reader := Gone)];
      if c in clients {
        clients := clients - {c};
        conns := conns[c := conns[c].(closed := true, left := |history|)];
      }
    }

    /** The non-blocking send to one client with an open channel. */
    method OfferTo(c: nat)
      requires Enabled(Offer(c), St()) && !conns[c].closed
      modifies this
      ensures St() == Apply(Offer(c), old(St()))
    {
      var at := |history| - 1;
      if |conns[c].queue| < CLIENT_SLOTS {
        conns := conns[c := conns[c].(queue := conns[c].queue + [Item(at, history[at])])];
      } else {
        conns := conns[c := conns[c].(drops := conns[c].drops + {at})];
      }
      pc := Sending(pc.todo - {c});
    }

    /** One broadcast with no pump in between: every client is offered the event once. */
    method OnBroadcast() returns (ghost acts: seq<Action>)
      requires Enabled(Take, St()) && clients <= conns.Keys
      requires forall c :: c in clients ==> !conns[c].closed
      modifies this
      ensures Chain(acts, old(St()), St())
      ensures pc == Idle && Offering(old(St()), St(), {})
    {
      ghost var start := St();
      history, broadcast, pc := history + [broadcast[0]], broadcast[1..], Sending(clients);
      acts := [Take];
      ChainAppend([], start, start, Take);
      var todo := clients;
      while todo != {}
        invariant pc == Sending(todo) && Chain(acts, start, St())
        invariant Offering(start, St(), todo)
      {
        var c :| c in todo;
        ghost var before := St();
        OfferingStep(start, before, todo, c);
        OfferTo(c);
        ChainAppend(acts, start, before, Offer(c));
        acts := acts + [Offer(c)];
        todo := todo - {c};
      }
      ghost var last := St();
      pc := Idle;
      ChainAppend(acts, start, last, Done);
      acts := acts + [Done];
    }
  }

  /** The field updates of a whole broadcast are steps, so they keep the invariant. */
  lemma {:induction false} ChainKeepsInv(acts: seq<Action>, s: State, t: State)
    requires Chain(acts, s, t) && Inv(s)
    ensures Inv(t)
  {
    if acts != [] {
      StepKeepsInv(acts[0], s);
      ChainKeepsInv(acts[1..], Apply(acts[0], s), t);
    }
  }

  /** Midway through a broadcast: the clients not in `todo` have been offered the event. */
  predicate Offering(start: State, s: State, todo: set<nat>)
    requires start.broadcast != []
  {
    var msg := start.broadcast[0];
    && todo <= start.clients == s.clients && s.conns.Keys == start.conns.Keys && s.clients <= s.conns.Keys
    && s.history == start.history + [msg] && s.broadcast == start.broadcast[1..]
    && (forall c :: c in s.clients && c !in todo ==> s.conns[c] == Offered(start.conns[c], Item(|start.history|, msg)))
    && (forall c :: c in s.conns && (c !in s.clients || c in todo) ==> s.conns[c] == start.conns[c])
  }

  lemma {:induction false} OfferingStep(start: State, s: State, todo: set<nat>, c: nat)
    requires start.broadcast != [] && Offering(start, s, todo) && c in todo
    requires Enabled(Offer(c), s) && !start.conns[c].closed
    ensures Offering(start, Apply(Offer(c), s), todo - {c})
  {
  }
}
