/** What holds over any interleaving of publishers and subscribers, and of what the relay receives
    (agent/video.py:53-93, pibot/mc/video_relay.py:33-80). */
module FanoutLaws {
  import opened Wrappers
  import opened Fanout

  function Run<T>(events: seq<Event<T>>, maxsize: int): State<T> {
    if |events| == 0 then State([], map[]) else Step(Run(events[..|events| - 1], maxsize), events[|events| - 1], maxsize)
  }

  /** The queue holds the newest of the frames offered since the last one taken; nothing is lost but the
      frames counted as dropped; what was taken are frames of the stream, in stream order. */
  ghost predicate Faithful<T>(stream: seq<T>, r: Reader<T>, maxsize: int) {
    && r.joined <= r.cursor <= r.offered <= |stream| && (r.active ==> r.offered == |stream|)
    && r.queue == Newest(stream[..r.offered], r.cursor, maxsize)
    && r.joined + |r.taken| + r.dropped + |r.queue| == r.offered && r.cursor <= r.joined + |r.taken| + r.dropped
    && (maxsize <= 0 ==> r.dropped == 0)
    && (forall i, k :: 0 <= i < k < |r.taken| ==> r.taken[i] < r.taken[k])
    && (forall i :: 0 <= i < |r.taken| ==> r.joined <= r.taken[i] < r.cursor)
    && |r.got| == |r.taken| && forall i :: 0 <= i < |r.got| ==> r.got[i] == stream[r.taken[i]]
  }

  lemma FaithfulGive<T>(stream: seq<T>, r: Reader<T>, x: T, maxsize: int)
    requires Faithful(stream, r, maxsize)
    ensures Faithful(stream + [x], Give(r, x, maxsize), maxsize)
  {
    assert (stream + [x])[..r.offered] == stream[..r.offered];
    if r.active {
      assert stream[..r.offered] == stream && (stream + [x])[..r.offered + 1] == stream + [x];
      OfferKeepsNewest(stream, r.cursor, maxsize, x);
    }
  }

  lemma FaithfulTake<T>(stream: seq<T>, r: Reader<T>, maxsize: int)
    requires Faithful(stream, r, maxsize)
    ensures Faithful(stream, TakeOne(r), maxsize)
    ensures |r.queue| > 0 ==> r.queue[0] == stream[TakeOne(r).cursor - 1] && r.cursor < TakeOne(r).cursor
  {
    if |r.queue| > 0 {
      TakeKeepsNewest(stream[..r.offered], r.cursor, maxsize);
    }
  }

  ghost predicate AllFaithful<T>(s: State<T>, maxsize: int) {
    forall id :: id in s.readers ==> Faithful(s.stream, s.readers[id], maxsize)
  }

  lemma FaithfulStep<T>(s: State<T>, e: Event<T>, maxsize: int)
    requires AllFaithful(s, maxsize)
    ensures AllFaithful(Step(s, e, maxsize), maxsize)
  {
    match e
    case Subscribe(_) => assert s.stream[..|s.stream|] == s.stream;
    case Unsubscribe(id) =>
    case Take(id) => if id in s.readers { FaithfulTake(s.stream, s.readers[id], maxsize); }
    case Publish(x) =>
      forall id | id in s.readers
        ensures Faithful(s.stream + [x], Give(s.readers[id], x, maxsize), maxsize)
      {
        FaithfulGive(s.stream, s.readers[id], x, maxsize);
      }
  }

  /** Over any interleaving of subscribing, unsubscribing, publishing and taking, by any number of readers. */
  lemma {:induction false} QueuesAreFaithful<T>(events: seq<Event<T>>, maxsize: int)
    ensures AllFaithful(Run(events, maxsize), maxsize)
  {
    if |events| == 0 {
    } else {
      QueuesAreFaithful(events[..|events| - 1], maxsize);
      FaithfulStep(Run(events[..|events| - 1], maxsize), events[|events| - 1], maxsize);
    }
  }

  /** The events that concern a reader: its own, and what is published. */
  function For<T>(events: seq<Event<T>>, id: nat): seq<Event<T>> {
    if |events| == 0 then []
    else
      var last := events[|events| - 1];
      For(events[..|events| - 1], id) + if last.Publish? || last.id == id then [last] else []
  }

  /** No reader affects another: what a reader holds, took and lost is what it would be if there were no
      other readers at all. */
  lemma {:induction false} ReadersAreIndependent<T>(events: seq<Event<T>>, id: nat, maxsize: int)
    ensures var s, alone := Run(events, maxsize), Run(For(events, id), maxsize);
            && s.stream == alone.stream && (id in s.readers <==> id in alone.readers)
            && (id in s.readers ==> s.readers[id] == alone.readers[id])
  {
    if |events| == 0 {
    } else {
      var init, last := events[..|events| - 1], events[|events| - 1];
      ReadersAreIndependent(init, id, maxsize);
      if last.Publish? || last.id == id {
        assert For(events, id)[..|For(events, id)| - 1] == For(init, id);
      } else {
        assert For(events, id) == For(init, id);
      }
    }
  }

  lemma {:induction false} Consecutive(a: seq<nat>, low: nat)
    requires forall i, k :: 0 <= i < k < |a| ==> a[i] < a[k]
    requires forall i :: 0 <= i < |a| ==> low <= a[i] < low + |a|
    ensures forall i :: 0 <= i < |a| ==> a[i] == low + i
  {
    if |a| == 0 {
    } else {
      var n := |a| - 1;
      AtLeast(a, low, n);
      assert forall i :: 0 <= i < n ==> a[..n][i] == a[i] < a[n];
      Consecutive(a[..n], low);
      assert forall i :: 0 <= i < n ==> a[i] == a[..n][i];
    }
  }

  lemma {:induction false} AtLeast(a: seq<nat>, low: nat, i: nat)
    requires i < |a| && (forall i, k :: 0 <= i < k < |a| ==> a[i] < a[k]) && low <= a[0]
    ensures low + i <= a[i]
  {
    if i > 0 { AtLeast(a, low, i - 1); }
  }

  /** Exactly when nothing was dropped for it, a reader has every frame since it joined: those it took,
      without a gap, and those in its queue. Without a limit that is always so. */
  lemma CompleteUnlessDropped<T>(stream: seq<T>, r: Reader<T>, maxsize: int)
    requires Faithful(stream, r, maxsize)
    ensures |r.taken| + |r.queue| == r.offered - r.joined <==> r.dropped == 0
    ensures r.dropped == 0 ==> forall i :: 0 <= i < |r.taken| ==> r.taken[i] == r.joined + i
    ensures maxsize <= 0 ==> r.dropped == 0
  {
    if r.dropped == 0 { Consecutive(r.taken, r.joined); }
  }

  // ----- the relay -----

  predicate IsPart<B>(m: Msg<B>) { m.Text? || m.Binary? }

  /** The last message that is a header or a body. */
  function LastPart<B>(msgs: seq<Msg<B>>): (r: Option<nat>)
    ensures r.Some? ==> r.value < |msgs| && IsPart(msgs[r.value]) && forall k :: r.value < k < |msgs| ==> !IsPart(msgs[k])
    ensures r.None? ==> forall k :: 0 <= k < |msgs| ==> !IsPart(msgs[k])
  {
    if |msgs| == 0 then None
    else if IsPart(msgs[|msgs| - 1]) then Some(|msgs| - 1)
    else LastPart(msgs[..|msgs| - 1])
  }

  ghost predicate Open<B>(msgs: seq<Msg<B>>) { Closed !in msgs }

  /** The header that the body at the end of `msgs` belongs to. */
  ghost function HeaderOf<B>(msgs: seq<Msg<B>>): (r: Option<nat>)
    requires |msgs| > 0
  {
    var n := |msgs| - 1;
    var part := LastPart(msgs[..n]);
    if msgs[n].Binary? && part.Some? && msgs[part.value].Text? && Open(msgs[..n]) then part else None
  }

  /** The positions of the headers and bodies that make a pair, in order. */
  ghost function Pairings<B>(msgs: seq<Msg<B>>): seq<(nat, nat)> {
    if |msgs| == 0 then []
    else
      Pairings(msgs[..|msgs| - 1])
        + if HeaderOf(msgs).Some? then [(HeaderOf(msgs).value, |msgs| - 1)] else []
  }

  lemma {:induction false} PendingIsLastPart<B>(msgs: seq<Msg<B>>)
    ensures var r, part := ReceiveAll(msgs), LastPart(msgs);
            && (r.open <==> Open(msgs))
            && (r.open ==> r.pending == if part.Some? && msgs[part.value].Text? then Some(msgs[part.value].header) else None)
  {
    if |msgs| == 0 {
    } else {
      PendingIsLastPart(msgs[..|msgs| - 1]);
      assert msgs == msgs[..|msgs| - 1] + [msgs[|msgs| - 1]];
    }
  }

  /** The pairs are made of a header and the first body after it with no other header in between. */
  ghost predicate GoodPair<B>(msgs: seq<Msg<B>>, p: (nat, nat)) {
    && p.0 < p.1 < |msgs| && msgs[p.0].Text? && msgs[p.1].Binary?
    && forall k :: p.0 < k < p.1 ==> !IsPart(msgs[k])
  }

  lemma GoodPairLonger<B>(msgs: seq<Msg<B>>, p: (nat, nat))
    requires |msgs| > 0 && GoodPair(msgs[..|msgs| - 1], p)
    ensures GoodPair(msgs, p)
  {
    forall k | p.0 < k < p.1
      ensures !IsPart(msgs[k])
    {
      assert msgs[..|msgs| - 1][k] == msgs[k];
    }
  }

  ghost predicate Matches<B>(msgs: seq<Msg<B>>, pushed: seq<(string, B)>, pairs: seq<(nat, nat)>) {
    && |pushed| == |pairs|
    && (forall k :: 0 <= k < |pairs| ==>
          GoodPair(msgs, pairs[k]) && pushed[k] == (msgs[pairs[k].0].header, msgs[pairs[k].1].body))
    && (forall k, l :: 0 <= k < l < |pairs| ==> pairs[k].1 < pairs[l].0)
  }

  lemma MatchesLonger<B>(msgs: seq<Msg<B>>, pushed: seq<(string, B)>, pairs: seq<(nat, nat)>)
    requires |msgs| > 0 && Matches(msgs[..|msgs| - 1], pushed, pairs)
    ensures Matches(msgs, pushed, pairs)
  {
    forall k | 0 <= k < |pairs|
      ensures GoodPair(msgs, pairs[k])
    {
      GoodPairLonger(msgs, pairs[k]);
    }
  }

  lemma MatchesMore<B>(msgs: seq<Msg<B>>, pushed: seq<(string, B)>, pairs: seq<(nat, nat)>, j: nat)
    requires |msgs| > 0 && Matches(msgs, pushed, pairs) && GoodPair(msgs, (j, |msgs| - 1))
    requires forall k :: 0 <= k < |pairs| ==> pairs[k].1 < j
    ensures Matches(msgs, pushed + [(msgs[j].header, msgs[|msgs| - 1].body)], pairs + [(j, |msgs| - 1)])
  {
  }

  lemma HeaderIsLast<B>(msgs: seq<Msg<B>>, pairs: seq<(nat, nat)>)
    requires |msgs| > 0 && HeaderOf(msgs).Some?
    requires forall k :: 0 <= k < |pairs| ==> GoodPair(msgs[..|msgs| - 1], pairs[k])
    ensures GoodPair(msgs, (HeaderOf(msgs).value, |msgs| - 1))
    ensures forall k :: 0 <= k < |pairs| ==> pairs[k].1 < HeaderOf(msgs).value
  {
    var n, j, init := |msgs| - 1, HeaderOf(msgs).value, msgs[..|msgs| - 1];
    assert forall k :: j < k < n ==> init[k] == msgs[k];
    forall k | 0 <= k < |pairs|
      ensures pairs[k].1 < j
    {
      assert IsPart(init[pairs[k].1]);
    }
  }

  lemma LastReceived<B>(msgs: seq<Msg<B>>)
    requires |msgs| > 0
    ensures var init, last := msgs[..|msgs| - 1], msgs[|msgs| - 1];
            ReceiveAll(msgs).pushed == ReceiveAll(init).pushed
              + if HeaderOf(msgs).Some? then [(msgs[HeaderOf(msgs).value].header, last.body)] else []
  {
    PendingIsLastPart(msgs[..|msgs| - 1]);
  }

  /** What the relay pushes is exactly, in order, each header with the body that follows it: no header
      twice, none with the body of another, and nothing after the connection closes. */
  lemma {:induction false} RelayPushesPairs<B>(msgs: seq<Msg<B>>)
    ensures Matches(msgs, ReceiveAll(msgs).pushed, Pairings(msgs))
  {
    if |msgs| == 0 {
    } else {
      var init := msgs[..|msgs| - 1];
      var pushed, pairs := ReceiveAll(init).pushed, Pairings(init);
      RelayPushesPairs(init);
      MatchesLonger(msgs, pushed, pairs);
      LastReceived(msgs);
      if HeaderOf(msgs).Some? {
        HeaderIsLast(msgs, pairs);
        MatchesMore(msgs, pushed, pairs, HeaderOf(msgs).value);
      } else {
        assert pushed + [] == pushed && pairs + [] == pairs;
      }
    }
  }

  /** And nothing else is left out: every header followed, with nothing but other messages between, by a
      body is pushed, if the connection was still open then. */
  lemma {:induction false} EveryPairIsPushed<B>(msgs: seq<Msg<B>>, p: (nat, nat))
    requires GoodPair(msgs, p) && Open(msgs[..p.1])
    ensures p in Pairings(msgs)
  {
    var n := |msgs| - 1;
    if p.1 < n {
      assert msgs[..n][..p.1] == msgs[..p.1];
      EveryPairIsPushed(msgs[..n], p);
    } else {
      assert msgs[..n][p.0] == msgs[p.0] && IsPart(msgs[..n][p.0]);
      assert forall k :: p.0 < k < n ==> msgs[..n][k] == msgs[k];
      assert LastPart(msgs[..n]) == Some(p.0);
    }
  }
}
