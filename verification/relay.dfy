/** The relay server: a receiver that classifies inbound datagrams and a
    broadcaster that drains a FIFO queue, coupled through the client set
    and the queue.  Each thread iteration is one atomic step; a run of the
    server is a sequence of such steps in any interleaving. */
module Relay {
  import opened Constants

  /** The state the two server threads share. */
  datatype State = State(clients: set<Endpoint>, queue: seq<Datagram>)

  /** A fresh server: no clients, nothing queued. */
  const Initial: State := State({}, [])

  predicate IsRegistration(payload: Bytes) {
    payload == InitMessage
  }

  /** One inbound datagram: an exact "init" registers its sender and is
      not queued; anything else is queued unchanged with its origin. */
  function PutMessageInQueue(s: State, d: Datagram): (r: State)
    ensures s.clients <= r.clients <= s.clients + {d.origin}
    ensures IsRegistration(d.payload) ==> d.origin in r.clients && r.queue == s.queue
    ensures !IsRegistration(d.payload) ==> r.clients == s.clients && r.queue == s.queue + [d]
  {
    if d.payload == InitMessage then
      s.(clients := s.clients + {d.origin})
    else
      s.(queue := s.queue + [d])
  }

  /** The destinations of a set of sends. */
  function Destinations(sends: set<Send>): set<Endpoint> {
    set x | x in sends :: x.dest
  }

  /** The sends one broadcast of `d` makes: its payload, unchanged, to
      every client other than its origin. */
  function Fanout(clients: set<Endpoint>, d: Datagram): (sends: set<Send>)
    ensures forall x :: x in sends <==> x.payload == d.payload && x.dest in clients && x.dest != d.origin
    ensures d.origin !in Destinations(sends)
    ensures sends == {} <==> clients <= {d.origin}
  {
    var sends := set c | c in clients && c != d.origin :: Send(d.payload, c);
    assert !(clients <= {d.origin}) ==> sends != {} by {
      if !(clients <= {d.origin}) {
        var c :| c in clients && c !in {d.origin};
        assert Send(d.payload, c) in sends;
      }
    }
    sends
  }

  /** `sends` are exactly the sends a broadcast of `d` to `clients` makes. */
  ghost predicate IsFanout(sends: set<Send>, clients: set<Endpoint>, d: Datagram) {
    forall x :: x in sends <==> x.payload == d.payload && x.dest in clients && x.dest != d.origin
  }

  /** The number of clients in `done` other than `origin`. */
  function Others(done: set<Endpoint>, origin: Endpoint): nat {
    if origin in done then |done| - 1 else |done|
  }

  lemma OthersIsCardinality(clients: set<Endpoint>, origin: Endpoint)
    ensures Others(clients, origin) == |clients - {origin}|
  {
    if origin in clients {
      assert clients == (clients - {origin}) + {origin};
    } else {
      assert clients - {origin} == clients;
    }
  }

  /** Visiting one more client `c` keeps the broadcast loop's account:
      the sends made so far are the fan-out over the clients visited, one
      per visited client other than the origin. */
  lemma FanoutAdd(done: set<Endpoint>, c: Endpoint, d: Datagram, sends: set<Send>)
    requires c !in done
    requires IsFanout(sends, done, d) && |sends| == Others(done, d.origin)
    ensures var next := if c != d.origin then sends + {Send(d.payload, c)} else sends;
      IsFanout(next, done + {c}, d) && |next| == Others(done + {c}, d.origin)
  {
    if c != d.origin {
      assert Send(d.payload, c) !in sends;
    }
  }

  /** The broadcast loop: visits the clients one by one in an unspecified
      order and sends to each that is not the origin, so there is exactly
      one send per client other than the origin. */
  method BroadcastMessageToClients(clients: set<Endpoint>, d: Datagram) returns (sends: set<Send>)
    ensures sends == Fanout(clients, d)
    ensures |sends| == |clients - {d.origin}|
  {
    sends := {};
    var todo := clients;
    ghost var done: set<Endpoint> := {};
    while todo != {}
      invariant done + todo == clients && done !! todo
      invariant IsFanout(sends, done, d) && |sends| == Others(done, d.origin)
      decreases todo
    {
      var c :| c in todo;
      FanoutAdd(done, c, d, sends);
      if c != d.origin {
        sends := sends + {Send(d.payload, c)};
      }
      done := done + {c};
      todo := todo - {c};
    }
    assert done == clients;
    FanoutUnique(sends, clients, d);
    OthersIsCardinality(clients, d.origin);
  }

  /** The fan-out is the only set of sends with its membership. */
  lemma FanoutUnique(sends: set<Send>, clients: set<Endpoint>, d: Datagram)
    requires IsFanout(sends, clients, d)
    ensures sends == Fanout(clients, d)
  {
  }

  /** One iteration of the receiver thread: read one datagram into a
      BufferSize-byte buffer and hand it to PutMessageInQueue. */
  function ReceiverStep(s: State, wire: Bytes, from: Endpoint): (r: State)
    ensures wire == InitMessage ==> r == s.(clients := s.clients + {from})
    ensures wire != InitMessage && |wire| <= BufferSize ==> r == s.(queue := s.queue + [Datagram(wire, from)])
    ensures |wire| > BufferSize ==> r == s.(queue := s.queue + [Datagram(wire[..BufferSize], from)])
    ensures forall i :: |s.queue| <= i < |r.queue| ==> |r.queue[i].payload| <= BufferSize
  {
    PutMessageInQueue(s, Datagram(RecvFrom(wire), from))
  }

  /** The effect of one broadcast: the message broadcast and its sends. */
  datatype Round = Round(msg: Datagram, sends: set<Send>)

  /** One iteration of the broadcaster thread: take the head of the queue
      and broadcast it.  On an empty queue the thread is blocked and takes
      no step (None). */
  function BroadcasterStep(s: State): (r: Option<(State, Round)>)
    ensures r.None? <==> s.queue == []
    ensures r.Some? ==> r.value.0.clients == s.clients
    ensures r.Some? ==> [r.value.1.msg] + r.value.0.queue == s.queue
    ensures r.Some? ==> r.value.1.sends == Fanout(s.clients, r.value.1.msg)
  {
    if s.queue == [] then None
    else
      var d := s.queue[0];
      Some((State(s.clients, s.queue[1..]), Round(d, Fanout(s.clients, d))))
  }

  /** What the scheduler lets happen next: the receiver reads a datagram
      carrying `wire` from `from`, or the broadcaster takes a turn. */
  datatype Event = Arrive(wire: Bytes, from: Endpoint) | Dispatch

  /** A run: the final state and the broadcasts made, in order. */
  datatype Trace = Trace(final: State, rounds: seq<Round>)

  function Step(s: State, e: Event): (r: (State, seq<Round>))
    ensures |r.1| <= 1
    ensures s.clients <= r.0.clients
  {
    match e
    case Arrive(wire, from) => (ReceiverStep(s, wire, from), [])
    case Dispatch =>
      match BroadcasterStep(s)
      case None => (s, [])
      case Some(p) => (p.0, [p.1])
  }

  /** The server after a sequence of atomic steps.  No step ever removes
      a client. */
  function Run(s: State, evs: seq<Event>): (t: Trace)
    ensures s.clients <= t.final.clients
    ensures |t.rounds| <= |evs|
    decreases |evs|
  {
    if evs == [] then Trace(s, [])
    else
      var (s1, out) := Step(s, evs[0]);
      var t := Run(s1, evs[1..]);
      Trace(t.final, out + t.rounds)
  }

  /** Running two event sequences back to back is running their
      concatenation. */
  lemma {:induction false} RunConcat(s: State, e1: seq<Event>, e2: seq<Event>)
    ensures var m := Run(s, e1);
      Run(s, e1 + e2) == Trace(Run(m.final, e2).final, m.rounds + Run(m.final, e2).rounds)
    decreases |e1|
  {
    if e1 == [] {
      assert e1 + e2 == e2;
    } else {
      var st := Step(s, e1[0]);
      assert (e1 + e2)[0] == e1[0];
      assert (e1 + e2)[1..] == e1[1..] + e2;
      RunConcat(st.0, e1[1..], e2);
      var m := Run(st.0, e1[1..]);
      var r := Run(m.final, e2);
      assert st.1 + (m.rounds + r.rounds) == (st.1 + m.rounds) + r.rounds;
    }
  }

  /** The address an event registers, if any. */
  function RegisteredBy(e: Event): set<Endpoint> {
    if e.Arrive? && IsRegistration(RecvFrom(e.wire)) then {e.from} else {}
  }

  /** The datagram an event queues, if any. */
  function EnqueuedBy(e: Event): seq<Datagram> {
    if e.Arrive? && !IsRegistration(RecvFrom(e.wire)) then [Datagram(RecvFrom(e.wire), e.from)] else []
  }

  /** The addresses that sent a registration during `evs`. */
  function Registrations(evs: seq<Event>): set<Endpoint>
    decreases |evs|
  {
    if evs == [] then {} else RegisteredBy(evs[0]) + Registrations(evs[1..])
  }

  /** The datagrams the receiver queued during `evs`, in arrival order. */
  function Enqueued(evs: seq<Event>): seq<Datagram>
    decreases |evs|
  {
    if evs == [] then [] else EnqueuedBy(evs[0]) + Enqueued(evs[1..])
  }

  /** The messages broadcast, in broadcast order. */
  function Delivered(rounds: seq<Round>): (r: seq<Datagram>)
    ensures |r| == |rounds|
  {
    if rounds == [] then [] else [rounds[0].msg] + Delivered(rounds[1..])
  }

  /** The client set after a run is exactly the initial set plus every
      address that registered: registration is the only way in, and
      nothing ever leaves. */
  lemma {:induction false} RunClients(s: State, evs: seq<Event>)
    ensures Run(s, evs).final.clients == s.clients + Registrations(evs)
    decreases |evs|
  {
    if evs != [] {
      var s1 := Step(s, evs[0]).0;
      RunClients(s1, evs[1..]);
      match evs[0]
      case Arrive(wire, from) => {}
      case Dispatch => {}
    }
  }

  lemma {:induction false} DeliveredAppend(a: seq<Round>, b: seq<Round>)
    ensures Delivered(a + b) == Delivered(a) + Delivered(b)
    decreases |a|
  {
    if a == [] {
      assert a + b == b;
    } else {
      assert (a + b)[1..] == a[1..] + b;
      DeliveredAppend(a[1..], b);
    }
  }

  /** One step keeps the queue's FIFO bookkeeping: what it broadcast,
      followed by the new queue, is the old queue followed by what it
      queued. */
  lemma StepFifo(s: State, e: Event)
    ensures Delivered(Step(s, e).1) + Step(s, e).0.queue == s.queue + EnqueuedBy(e)
  {
  }

  /** Joins the bookkeeping of one step (`a + mid == pre + e`) with that
      of the rest of a run (`b + post == mid + f`). */
  lemma Splice(a: seq<Datagram>, b: seq<Datagram>, post: seq<Datagram>, mid: seq<Datagram>,
               pre: seq<Datagram>, e: seq<Datagram>, f: seq<Datagram>)
    requires a + mid == pre + e
    requires b + post == mid + f
    ensures (a + b) + post == pre + (e + f)
  {
    calc {
      (a + b) + post;
      a + (b + post);
      (a + mid) + f;
      (pre + e) + f;
    }
  }

  /** FIFO: the messages broadcast, followed by what is still queued, are
      the initial queue followed by every queued arrival, in order. */
  lemma {:induction false} RunFifo(s: State, evs: seq<Event>)
    ensures Delivered(Run(s, evs).rounds) + Run(s, evs).final.queue == s.queue + Enqueued(evs)
    decreases |evs|
  {
    if evs == [] {
      assert Delivered([]) == [];
    } else {
      var st := Step(s, evs[0]);
      var s1, out := st.0, st.1;
      var t := Run(s1, evs[1..]);
      assert Run(s, evs) == Trace(t.final, out + t.rounds);
      assert Enqueued(evs) == EnqueuedBy(evs[0]) + Enqueued(evs[1..]);
      RunFifo(s1, evs[1..]);
      StepFifo(s, evs[0]);
      DeliveredAppend(out, t.rounds);
      Splice(Delivered(out), Delivered(t.rounds), t.final.queue, s1.queue, s.queue, EnqueuedBy(evs[0]), Enqueued(evs[1..]));
    }
  }

  /** FIFO: what has been broadcast is
      always a prefix of the initial queue followed by the arrivals. */
  lemma BroadcastOrderIsArrivalOrder(s: State, evs: seq<Event>)
    ensures Delivered(Run(s, evs).rounds) <= s.queue + Enqueued(evs)
  {
    RunFifo(s, evs);
  }

  /** Routing of every broadcast in a run: the payload goes out unchanged,
      never back to its origin, only to addresses that are clients by the
      end of the run, and to every client that was already registered
      when the run began (other than the origin). */
  lemma {:induction false} RunRouting(s: State, evs: seq<Event>)
    ensures forall i, x :: 0 <= i < |Run(s, evs).rounds| && x in Run(s, evs).rounds[i].sends ==>
      && x.payload == Run(s, evs).rounds[i].msg.payload
      && x.dest != Run(s, evs).rounds[i].msg.origin
      && x.dest in Run(s, evs).final.clients
    ensures forall i, c :: 0 <= i < |Run(s, evs).rounds| && c in s.clients && c != Run(s, evs).rounds[i].msg.origin ==>
      Send(Run(s, evs).rounds[i].msg.payload, c) in Run(s, evs).rounds[i].sends
    decreases |evs|
  {
    if evs != [] {
      var (s1, out) := Step(s, evs[0]);
      var t := Run(s1, evs[1..]);
      RunRouting(s1, evs[1..]);
      assert Run(s, evs).rounds == out + t.rounds;
      assert s.clients <= s1.clients <= t.final.clients;
      if out != [] {
        assert evs[0].Dispatch? && s.queue != [];
        assert out[0].sends == Fanout(s.clients, out[0].msg);
      }
    }
  }

  /** An address that was not a client and never sends "init" is never the
      target of a send, although whatever it sends is still broadcast. */
  lemma NeverRegisteredNeverTargeted(s: State, evs: seq<Event>, a: Endpoint)
    requires a !in s.clients && a !in Registrations(evs)
    ensures forall i, x :: 0 <= i < |Run(s, evs).rounds| && x in Run(s, evs).rounds[i].sends ==> x.dest != a
  {
    RunClients(s, evs);
    RunRouting(s, evs);
  }

  /** Registration is idempotent: a repeated "init" from a client changes
      nothing, and registering twice is the same as registering once. */
  lemma RegistrationIdempotent(s: State, a: Endpoint)
    ensures a in s.clients ==> PutMessageInQueue(s, Datagram(InitMessage, a)) == s
    ensures var once := PutMessageInQueue(s, Datagram(InitMessage, a));
      PutMessageInQueue(once, Datagram(InitMessage, a)) == once
    ensures |PutMessageInQueue(s, Datagram(InitMessage, a)).clients| == |s.clients| + (if a in s.clients then 0 else 1)
  {
  }

  /** Every queued payload fits in the receive buffer. */
  predicate QueueBounded(s: State) {
    forall i :: 0 <= i < |s.queue| ==> |s.queue[i].payload| <= BufferSize
  }

  /** The bound on queued payloads holds throughout any run, and so every
      broadcast payload fits in one datagram. */
  lemma {:induction false} RunKeepsQueueBounded(s: State, evs: seq<Event>)
    requires QueueBounded(s)
    ensures QueueBounded(Run(s, evs).final)
    ensures forall i :: 0 <= i < |Run(s, evs).rounds| ==> |Run(s, evs).rounds[i].msg.payload| <= BufferSize
    decreases |evs|
  {
    if evs != [] {
      var (s1, out) := Step(s, evs[0]);
      assert QueueBounded(s1) by {
        match evs[0]
        case Arrive(wire, from) => {}
        case Dispatch => {}
      }
      assert forall i :: 0 <= i < |out| ==> |out[i].msg.payload| <= BufferSize;
      RunKeepsQueueBounded(s1, evs[1..]);
      assert Run(s, evs).rounds == out + Run(s1, evs[1..]).rounds;
    }
  }

  /** Two clients register, the first sends "hello", and the broadcaster
      takes one turn: the second client receives exactly "hello", and the
      first receives nothing. */
  lemma HelloScenario()
    ensures var a := Endpoint("localhost", 5001);
      var b := Endpoint("localhost", 5002);
      var hello: Bytes := [0x68, 0x65, 0x6C, 0x6C, 0x6F];
      Run(Initial, [Arrive(InitMessage, a), Arrive(InitMessage, b), Arrive(hello, a), Dispatch]).rounds
        == [Round(Datagram(hello, a), {Send(hello, b)})]
  {
    var a := Endpoint("localhost", 5001);
    var b := Endpoint("localhost", 5002);
    var hello: Bytes := [0x68, 0x65, 0x6C, 0x6C, 0x6F];
    var evs := [Arrive(InitMessage, a), Arrive(InitMessage, b), Arrive(hello, a), Dispatch];
    assert hello != InitMessage by { assert |hello| != |InitMessage|; }
    var s1 := State({a}, []);
    var s2 := State({a, b}, []);
    var s3 := State({a, b}, [Datagram(hello, a)]);
    var s4 := State({a, b}, []);
    assert RecvFrom(InitMessage) == InitMessage;
    assert RecvFrom(hello) == hello;
    assert PutMessageInQueue(Initial, Datagram(InitMessage, a)) == s1 by {
      assert Initial.clients + {a} == {a};
    }
    assert ReceiverStep(Initial, InitMessage, a) == s1;
    assert Step(Initial, evs[0]) == (s1, []);
    assert Step(s1, evs[1]) == (s2, []) by { assert s1.clients + {b} == {a, b}; }
    assert Step(s2, evs[2]) == (s3, []) by { assert s2.queue + [Datagram(hello, a)] == s3.queue; }
    var r := Round(Datagram(hello, a), Fanout({a, b}, Datagram(hello, a)));
    assert Step(s3, evs[3]) == (s4, [r]);
    assert Run(s4, []) == Trace(s4, []);
    assert Run(s3, evs[3..]) == Trace(s4, [r]);
    assert Run(s2, evs[2..]) == Trace(s4, [r]);
    assert Run(s1, evs[1..]) == Trace(s4, [r]);
    assert Run(Initial, evs) == Trace(s4, [r]);
    assert Fanout({a, b}, Datagram(hello, a)) == {Send(hello, b)};
  }
}
