/** Drop-oldest fan-out to per-subscriber queues (agent/video.py and pibot/mc/video_relay.py). */
module Fanout {
  import opened Wrappers

  /** asyncio.Queue.full(): a size of zero or less means no limit. */
  predicate IsFull<T>(queue: seq<T>, maxsize: int) { maxsize > 0 && |queue| >= maxsize }

  /** Offering an element: the oldest makes room. */
  function Offer<T>(queue: seq<T>, x: T, maxsize: int): seq<T> {
    var kept := if IsFull(queue, maxsize) then queue[1..] else queue;
    if IsFull(kept, maxsize) then kept else kept + [x]
  }

  /** The newest elements of a stream from `cursor` on, as many as a queue holds. */
  function Newest<T>(stream: seq<T>, cursor: nat, maxsize: int): (r: seq<T>)
    requires cursor <= |stream|
    ensures |r| == if 0 < maxsize < |stream| - cursor then maxsize else |stream| - cursor
  {
    stream[First(stream, cursor, maxsize)..]
  }

  /** The position of the oldest element still held. */
  function First<T>(stream: seq<T>, cursor: nat, maxsize: int): (k: nat)
    requires cursor <= |stream|
    ensures cursor <= k <= |stream|
  {
    if 0 < maxsize < |stream| - cursor then |stream| - maxsize else cursor
  }

  lemma OfferKeepsNewest<T>(stream: seq<T>, cursor: nat, maxsize: int, x: T)
    requires cursor <= |stream|
    ensures Offer(Newest(stream, cursor, maxsize), x, maxsize) == Newest(stream + [x], cursor, maxsize)
  {
    var k := First(stream, cursor, maxsize);
    if IsFull(Newest(stream, cursor, maxsize), maxsize) {
      assert (stream + [x])[k + 1..] == stream[k + 1..] + [x] == stream[k..][1..] + [x];
    } else {
      assert (stream + [x])[k..] == stream[k..] + [x];
    }
  }

  lemma TakeKeepsNewest<T>(stream: seq<T>, cursor: nat, maxsize: int)
    requires cursor <= |stream| && |Newest(stream, cursor, maxsize)| > 0
    ensures var k := First(stream, cursor, maxsize);
            && Newest(stream, cursor, maxsize)[0] == stream[k]
            && Newest(stream, cursor, maxsize)[1..] == Newest(stream, k + 1, maxsize)
  {
  }

  // ----- what publishing, subscribing and taking do -----

  /** One subscriber: its queue, whether it is still subscribed, the positions in the stream where it
      joined, up to which it was offered frames and one past the last frame it took, how many frames were
      dropped for it, and the frames it took with their positions. */
  datatype Reader<T> = Reader(
    queue: seq<T>, active: bool, joined: nat, offered: nat, cursor: nat, dropped: nat, taken: seq<nat>, got: seq<T>)

  datatype State<T> = State(stream: seq<T>, readers: map<nat, Reader<T>>)

  datatype Event<T> = Subscribe(id: nat) | Unsubscribe(id: nat) | Take(id: nat) | Publish(frame: T)

  function Give<T>(r: Reader<T>, x: T, maxsize: int): Reader<T> {
    if !r.active then r
    else
      r.(queue := Offer(r.queue, x, maxsize), offered := r.offered + 1,
         dropped := if IsFull(r.queue, maxsize) then r.dropped + 1 else r.dropped)
  }

  function TakeOne<T>(r: Reader<T>): Reader<T> {
    if |r.queue| == 0 then r
    else
      var position := r.joined + r.dropped + |r.taken|;
      r.(queue := r.queue[1..], cursor := position + 1,
         taken := r.taken + [position], got := r.got + [r.queue[0]])
  }

  function Step<T>(s: State<T>, e: Event<T>, maxsize: int): State<T> {
    match e
    case Subscribe(id) =>
      if id in s.readers then s
      else
        var n := |s.stream|;
        s.(readers := s.readers[id := Reader([], true, n, n, n, 0, [], [])])
    case Unsubscribe(id) =>
      if id in s.readers then s.(readers := s.readers[id := s.readers[id].(active := false)]) else s
    case Take(id) => if id in s.readers then s.(readers := s.readers[id := TakeOne(s.readers[id])]) else s
    case Publish(x) =>
      State(s.stream + [x], map id | id in s.readers :: Give(s.readers[id], x, maxsize))
  }

  // ----- the queues themselves -----

  class Queue<T> {
    const maxsize: int
    var items: seq<T>

    constructor (maxsize: int)
      ensures this.maxsize == maxsize && items == []
    {
      this.maxsize := maxsize;
      items := [];
    }

    predicate Full()
      reads this
    {
      maxsize > 0 && |items| >= maxsize
    }

    /** None is QueueEmpty. */
    method GetNowait() returns (r: Option<T>)
      modifies this`items
      ensures if |old(items)| == 0 then r == None && items == [] else r == Some(old(items)[0]) && items == old(items)[1..]
    {
      if |items| == 0 {
        return None;
      }
      r := Some(items[0]);
      items := items[1..];
    }

    /** False is QueueFull. */
    method PutNowait(x: T) returns (ok: bool)
      modifies this`items
      ensures ok == !IsFull(old(items), maxsize)
      ensures items == if ok then old(items) + [x] else old(items)
    {
      ok := !Full();
      if ok {
        items := items + [x];
      }
    }

    /** Drop the oldest if there is no room. */
    method Deliver(x: T)
      modifies this`items
      ensures items == Offer(old(items), x, maxsize)
    {
      if Full() {
        var dropped := GetNowait();
      }
      var ok := PutNowait(x);
    }
  }

  /** `queues` are all that ever subscribed, numbered in that order; `view` is what has happened to them. */
  class Hub<T> {
    const maxsize: int
    var subscribers: seq<Queue<T>>
    ghost var queues: seq<Queue<T>>
    ghost var view: State<T>

    ghost predicate Valid()
      reads this, queues
    {
      && (forall i, k :: 0 <= i < k < |subscribers| ==> subscribers[i] != subscribers[k])
      && (forall i, k :: 0 <= i < k < |queues| ==> queues[i] != queues[k])
      && (forall q :: q in subscribers ==> q in queues)
      && (forall id: nat :: id in view.readers <==> id < |queues|)
      && forall id :: 0 <= id < |queues| ==> Agrees(queues[id], view.readers[id])
    }

    ghost predicate Agrees(q: Queue<T>, r: Reader<T>)
      reads this, q
    {
      q.maxsize == maxsize && q.items == r.queue && (r.active <==> q in subscribers)
    }

    /** The number of a queue; that of no reader if it never subscribed here. */
    ghost function Number(q: Queue<T>): (id: nat)
      reads this`queues
      ensures if q in queues then id < |queues| && queues[id] == q else id == |queues|
    {
      if q in queues then
        var id: nat :| id < |queues| && queues[id] == q;
        id
      else |queues|
    }

    constructor (maxsize: int)
      ensures Valid() && subscribers == [] && queues == [] && view == State([], map[]) && this.maxsize == maxsize
    {
      this.maxsize := maxsize;
      subscribers, queues, view := [], [], State([], map[]);
    }

    method Subscribe() returns (q: Queue<T>)
      requires Valid()
      modifies this
      ensures Valid() && fresh(q) && q.items == []
      ensures subscribers == old(subscribers) + [q] && queues == old(queues) + [q]
      ensures view == Step(old(view), Event.Subscribe(|old(queues)|), maxsize)
    {
      q := new Queue(maxsize);
      view := Step(view, Event.Subscribe(|queues|), maxsize);
      subscribers := subscribers + [q];
      queues := queues + [q];
    }

    /** An unknown queue is ignored. */
    method Unsubscribe(q: Queue<T>)
      requires Valid()
      modifies this`subscribers, this`view
      ensures Valid() && forall p :: p in subscribers <==> p in old(subscribers) && p != q
      ensures view == Step(old(view), Event.Unsubscribe(Number(q)), maxsize)
    {
      Remove(q);
      view := Step(view, Event.Unsubscribe(Number(q)), maxsize);
      forall k | 0 <= k < |queues|
        ensures Agrees(queues[k], view.readers[k])
      {
        assert old(Agrees(queues[k], view.readers[k]));
      }
    }

    /** Python's list.remove(), where it finds something. */
    method Remove(q: Queue<T>)
      requires forall i, k :: 0 <= i < k < |subscribers| ==> subscribers[i] != subscribers[k]
      modifies this`subscribers
      ensures forall i, k :: 0 <= i < k < |subscribers| ==> subscribers[i] != subscribers[k]
      ensures forall p :: p in subscribers <==> p in old(subscribers) && p != q
    {
      for i := 0 to |subscribers|
        invariant subscribers == old(subscribers) && q !in subscribers[..i]
      {
        if subscribers[i] == q {
          subscribers := subscribers[..i] + subscribers[i + 1..];
          return;
        }
      }
    }

    /** A subscriber, still subscribed or not, takes the oldest frame of its queue. */
    method Take(q: Queue<T>) returns (r: Option<T>)
      requires Valid() && q in queues
      modifies this`view, q`items
      ensures Valid() && view == Step(old(view), Event.Take(Number(q)), maxsize)
      ensures r == if |old(q.items)| > 0 then Some(old(q.items)[0]) else None
    {
      ghost var id := Number(q);
      assert Agrees(queues[id], view.readers[id]);
      r := q.GetNowait();
      view := Step(view, Event.Take(id), maxsize);
      forall k | 0 <= k < |queues|
        ensures Agrees(queues[k], view.readers[k])
      {
        assert old(Agrees(queues[k], view.readers[k]));
      }
    }

    method DeliverAll(x: T)
      requires forall i, k :: 0 <= i < k < |subscribers| ==> subscribers[i] != subscribers[k]
      requires forall q :: q in subscribers ==> q.maxsize == maxsize
      modifies subscribers
      ensures forall q :: q in subscribers ==> q.items == Offer(old(q.items), x, maxsize)
    {
      for i := 0 to |subscribers|
        invariant forall k :: i <= k < |subscribers| ==> subscribers[k].items == old(subscribers[k].items)
        invariant forall k :: 0 <= k < i ==> subscribers[k].items == Offer(old(subscribers[k].items), x, maxsize)
      {
        subscribers[i].Deliver(x);
      }
    }

    /** Deliver to every subscriber without ever waiting for one. */
    method Push(x: T)
      requires Valid()
      modifies this`view, subscribers
      ensures Valid() && view == Step(old(view), Publish(x), maxsize)
    {
      forall q | q in subscribers
        ensures q.maxsize == maxsize
      {
        assert Agrees(queues[Number(q)], view.readers[Number(q)]);
      }
      DeliverAll(x);
      view := Step(view, Publish(x), maxsize);
      forall id | 0 <= id < |queues|
        ensures Agrees(queues[id], view.readers[id])
      {
        assert old(Agrees(queues[id], view.readers[id]));
      }
    }
  }

  // ----- the camera broker -----

  datatype Frame<D> = Frame(seqNo: nat, data: D)

  class CameraBroker<D> {
    const hub: Hub<Frame<D>>
    var seqNo: nat

    /** Frame i of the stream carries number i. */
    ghost predicate Valid()
      reads this, hub, hub.queues
    {
      hub.Valid() && seqNo == |hub.view.stream| && forall i :: 0 <= i < |hub.view.stream| ==> hub.view.stream[i].seqNo == i
    }

    constructor (maxsize: int)
      ensures Valid() && fresh(hub) && hub.view.stream == [] && hub.subscribers == [] && hub.maxsize == maxsize
    {
      hub := new Hub(maxsize);
      seqNo := 0;
    }

    /** One round of the capture loop. */
    method Capture(data: D)
      requires Valid()
      modifies this, hub`view, hub.subscribers
      ensures Valid() && hub.view.stream == old(hub.view.stream) + [Frame(old(seqNo), data)]
      ensures hub.subscribers == old(hub.subscribers)
    {
      var frame := Frame(seqNo, data);
      seqNo := seqNo + 1;
      hub.Push(frame);
    }
  }

  // ----- the relay -----

  datatype Msg<B> = Text(header: string) | Binary(body: B) | Other | Closed

  /** The header waiting for its body, and the pairs pushed so far. */
  datatype Relay<B> = Relay(pending: Option<string>, pushed: seq<(string, B)>, open: bool)

  function Receive<B>(r: Relay<B>, m: Msg<B>): Relay<B> {
    if !r.open then r
    else
      match m
      case Text(header) => r.(pending := Some(header))
      case Binary(body) =>
        if r.pending.None? then r else r.(pending := None, pushed := r.pushed + [(r.pending.value, body)])
      case Other => r
      case Closed => r.(open := false)
  }

  function ReceiveAll<B>(msgs: seq<Msg<B>>): Relay<B> {
    if |msgs| == 0 then Relay(None, [], true) else Receive(ReceiveAll(msgs[..|msgs| - 1]), msgs[|msgs| - 1])
  }

  class VideoRelay<B> {
    const hub: Hub<(string, B)>
    var pending: Option<string>
    var open: bool

    ghost predicate Is(r: Relay<B>)
      reads this, hub, hub.queues
    {
      hub.Valid() && pending == r.pending && open == r.open && hub.view.stream == r.pushed
    }

    constructor ()
      ensures Is(Relay(None, [], true)) && fresh(hub) && hub.subscribers == [] && hub.maxsize == 4
    {
      hub := new Hub(4);
      pending, open := None, true;
    }

    method OnMessage(m: Msg<B>, ghost r: Relay<B>)
      requires Is(r)
      modifies this, hub`view, hub.subscribers
      ensures Is(Receive(r, m)) && hub.subscribers == old(hub.subscribers)
    {
      if !open { return; }
      match m
      case Text(header) => pending := Some(header);
      case Binary(body) =>
        if pending.Some? {
          hub.Push((pending.value, body));
          pending := None;
        }
      case Other =>
      case Closed => open := false;
    }
  }
}
