/** The subscription tasks: each received event is tagged with its topic,
    becomes the single shared last-seen metadata, and is queued for delivery
    when POST mode is configured. All tasks write the same last-seen slot; the
    model takes their events as one ordered sequence (last writer wins). */
module Subscriber {
  import opened Wrappers
  import opened Messages
  import Endpoint
  import Forwarder

  /** Key under which the topic name is added to every event. */
  const TopicKey: string := "topic"
  /** Value of the fetch-method setting that enables forwarding. */
  const PostMode: string := "POST"

  /** The event with its topic recorded under `TopicKey`; every other key
      keeps its value. */
  function Tag(data: Metadata, topic: string): (m: Metadata)
    ensures m.Keys == data.Keys + {TopicKey}
    ensures m[TopicKey] == Str(topic)
    ensures forall k :: k in data && k != TopicKey ==> m[k] == data[k]
  {
    data[TopicKey := Str(topic)]
  }

  /** An item from a subscriber: a message, or an item of its error channel. */
  datatype Event = Received(data: Metadata) | ReceiveFailed(reason: string)

  /** An event as handled by the task subscribed to `topic`. */
  datatype Delivery = Delivery(topic: string, event: Event)

  /** A body handed to the forwarder for `topic`. */
  datatype Forward = Forward(topic: string, body: Metadata)

  /** The shared last-seen metadata (nil until the first message) and the
      forwarder calls made so far, in order. */
  datatype State = State(lastSeen: Option<Metadata>, outbox: seq<Forward>)

  const Initial: State := State(None, [])

  /** Outcome of setting up a task's bus client and subscriber. */
  datatype Setup = ClientFailed | SubscribeFailed | Subscribed

  /** Handling of one delivery. A message becomes the last-seen metadata, and
      the very same tagged map is forwarded iff the fetch method is "POST";
      an error item is only logged. */
  function Step(fetchMethod: string, s: State, d: Delivery): (s': State)
    ensures d.event.ReceiveFailed? ==> s' == s
    ensures d.event.Received? ==> s'.lastSeen == Some(Tag(d.event.data, d.topic))
    ensures d.event.Received? && fetchMethod == PostMode ==>
      s'.outbox == s.outbox + [Forward(d.topic, s'.lastSeen.value)]
    ensures fetchMethod != PostMode ==> s'.outbox == s.outbox
  {
    match d.event
    case ReceiveFailed(_) => s
    case Received(data) =>
      var tagged := Tag(data, d.topic);
      State(Some(tagged), if fetchMethod == PostMode then s.outbox + [Forward(d.topic, tagged)] else s.outbox)
  }

  /** Handling of a sequence of deliveries, one at a time, in order. The
      outbox only grows, and only in POST mode. */
  function Run(fetchMethod: string, s: State, ds: seq<Delivery>): (r: State)
    ensures |s.outbox| <= |r.outbox| && r.outbox[..|s.outbox|] == s.outbox
    ensures fetchMethod != PostMode ==> r.outbox == s.outbox
  {
    if |ds| == 0 then s
    else Step(fetchMethod, Run(fetchMethod, s, ds[..|ds| - 1]), ds[|ds| - 1])
  }

  /** An event as it arrives at a task, with the dial outcomes the forwarder's
      probe would meet if the event is forwarded. */
  datatype Arrival = Arrival(event: Event, dials: seq<Forwarder.DialOutcome>)

  /** Handling `a` never finishes: it is a message forwarded in POST mode
      whose probe never succeeds, so the task blocks in the probe loop. */
  predicate Stalls(fetchMethod: string, a: Arrival)
  {
    fetchMethod == PostMode && a.event.Received? && Forwarder.Connected !in a.dials
  }

  /** The deliveries a running task makes: each arrival in turn, up to and
      including the first one whose handling stalls. */
  function Handled(fetchMethod: string, topic: string, arrivals: seq<Arrival>): (ds: seq<Delivery>)
    ensures |ds| <= |arrivals|
    ensures forall i :: 0 <= i < |ds| ==> ds[i] == Delivery(topic, arrivals[i].event)
    ensures forall i :: 0 <= i < |ds| - 1 ==> !Stalls(fetchMethod, arrivals[i])
    ensures |ds| < |arrivals| ==> |ds| > 0 && Stalls(fetchMethod, arrivals[|ds| - 1])
  {
    if |arrivals| == 0 then []
    else if Stalls(fetchMethod, arrivals[0]) then [Delivery(topic, arrivals[0].event)]
    else [Delivery(topic, arrivals[0].event)] + Handled(fetchMethod, topic, arrivals[1..])
  }

  /** The deliveries one task contributes: none when its bus client or its
      subscriber could not be created; otherwise its arrivals in order until
      one stalls in the probe, after which the task handles nothing more. */
  function Subscribe(fetchMethod: string, setup: Setup, topic: string, arrivals: seq<Arrival>): (ds: seq<Delivery>)
    ensures setup != Subscribed ==> ds == []
    ensures |ds| <= |arrivals|
    ensures forall i :: 0 <= i < |ds| ==> ds[i] == Delivery(topic, arrivals[i].event)
    ensures setup == Subscribed && (forall i :: 0 <= i < |arrivals| ==> !Stalls(fetchMethod, arrivals[i]))
      ==> |ds| == |arrivals|
    ensures forall k :: 0 <= k < |ds| && Stalls(fetchMethod, arrivals[k]) ==> |ds| == k + 1
  {
    if setup == Subscribed then Handled(fetchMethod, topic, arrivals) else []
  }

  /** A task stalled by an unreachable endpoint keeps the stalled message as
      its last word: the first arrival that stalls is the last one handled,
      and no later message on its topic becomes last-seen. */
  lemma StalledTaskStopsHandling(s: State, topic: string, arrivals: seq<Arrival>, k: nat)
    requires k < |arrivals| && Stalls(PostMode, arrivals[k])
    requires forall j :: 0 <= j < k ==> !Stalls(PostMode, arrivals[j])
    ensures var ds := Subscribe(PostMode, Subscribed, topic, arrivals);
      && |ds| == k + 1
      && Run(PostMode, s, ds).lastSeen == Some(Tag(arrivals[k].event.data, topic))
  {
    var ds := Subscribe(PostMode, Subscribed, topic, arrivals);
    LastWriterWins(PostMode, s, ds, k);
  }

  /** Reference definition of the forwarder calls: one per message, in order,
      each carrying the tagged message. */
  function Forwards(ds: seq<Delivery>): seq<Forward>
  {
    if |ds| == 0 then []
    else
      (if ds[0].event.Received? then [Forward(ds[0].topic, Tag(ds[0].event.data, ds[0].topic))] else [])
        + Forwards(ds[1..])
  }

  lemma {:induction false} ForwardsAppend(ds: seq<Delivery>, es: seq<Delivery>)
    ensures Forwards(ds + es) == Forwards(ds) + Forwards(es)
  {
    if |ds| == 0 {
      assert ds + es == es;
    } else {
      var head := if ds[0].event.Received? then [Forward(ds[0].topic, Tag(ds[0].event.data, ds[0].topic))] else [];
      assert (ds + es)[0] == ds[0];
      assert (ds + es)[1..] == ds[1..] + es;
      ForwardsAppend(ds[1..], es);
      assert Forwards(ds + es) == head + Forwards(ds[1..] + es);
      assert Forwards(ds) == head + Forwards(ds[1..]);
    }
  }

  /** Error items change neither the last-seen metadata nor the outbox. */
  lemma {:induction false} ErrorsChangeNothing(fetchMethod: string, s: State, ds: seq<Delivery>)
    requires forall j :: 0 <= j < |ds| ==> ds[j].event.ReceiveFailed?
    ensures Run(fetchMethod, s, ds) == s
  {
    if |ds| != 0 {
      ErrorsChangeNothing(fetchMethod, s, ds[..|ds| - 1]);
    }
  }

  /** Last writer wins: after a run, the last-seen metadata is the tagged form
      of the last message, whatever its topic; error items after it do not
      disturb it. */
  lemma {:induction false} LastWriterWins(fetchMethod: string, s: State, ds: seq<Delivery>, i: nat)
    requires i < |ds| && ds[i].event.Received?
    requires forall j :: i < j < |ds| ==> ds[j].event.ReceiveFailed?
    ensures Run(fetchMethod, s, ds).lastSeen == Some(Tag(ds[i].event.data, ds[i].topic))
  {
    if i < |ds| - 1 {
      LastWriterWins(fetchMethod, s, ds[..|ds| - 1], i);
    }
  }

  /** The outbox grows by exactly the tagged messages, in order, in POST mode,
      and not at all otherwise. */
  lemma {:induction false} RunOutbox(fetchMethod: string, s: State, ds: seq<Delivery>)
    ensures Run(fetchMethod, s, ds).outbox
      == s.outbox + if fetchMethod == PostMode then Forwards(ds) else []
  {
    if |ds| != 0 {
      var init := ds[..|ds| - 1];
      var last := ds[|ds| - 1];
      RunOutbox(fetchMethod, s, init);
      assert ds == init + [last];
      ForwardsAppend(init, [last]);
      assert Forwards([last]) == (if last.event.Received? then [Forward(last.topic, Tag(last.event.data, last.topic))] else []);
    }
  }

  /** In POST mode the most recent forwarder call carries exactly the map that
      is now the last-seen metadata. */
  lemma {:induction false} ForwardedIsLastSeen(s: State, ds: seq<Delivery>, i: nat)
    requires i < |ds| && ds[i].event.Received?
    requires forall j :: i < j < |ds| ==> ds[j].event.ReceiveFailed?
    ensures var r := Run(PostMode, s, ds);
      |r.outbox| > 0 && r.lastSeen == Some(r.outbox[|r.outbox| - 1].body)
  {
    if i < |ds| - 1 {
      ForwardedIsLastSeen(s, ds[..|ds| - 1], i);
    }
  }

  /** A task whose setup failed contributes nothing to the shared state. */
  lemma FailedSetupChangesNothing(fetchMethod: string, s: State, setup: Setup, topic: string, arrivals: seq<Arrival>)
    requires setup != Subscribed
    ensures Run(fetchMethod, s, Subscribe(fetchMethod, setup, topic, arrivals)) == s
  {
  }

  /** The forwarder call made for a queued body: the topic's configured
      endpoint is resolved and the body is posted to it, with the
      credential-bundle TLS client unless in development mode, once the probe
      succeeds; a call whose probe never succeeds posts nothing (its task
      stalls, see `Stalls`). */
  function Deliver(cfg: Endpoint.Config, devMode: bool, f: Forward, dials: seq<Forwarder.DialOutcome>): (t: seq<Forwarder.Action>)
    ensures Forwarder.Connected in dials ==>
      |t| > 0 && t[|t| - 1] == Forwarder.Post(Endpoint.PostUrl(Endpoint.EndpointOf(cfg, f.topic), devMode), f.body, !devMode)
    ensures Forwarder.Connected !in dials ==> forall i :: 0 <= i < |t| ==> !t[i].Post?
  {
    Forwarder.PostMetaData(Endpoint.EndpointOf(cfg, f.topic), devMode, f.body, dials)
  }

  /** The event {"a": 1} received on topic "foo" in POST mode is forwarded as
      {"a": 1, "topic": "foo"} to the endpoint configured for "foo", once the
      probe of that endpoint succeeds. */
  lemma ForwardExample(cfg: Endpoint.Config, devMode: bool)
    requires "foo" in cfg
    ensures var s := Step(PostMode, Initial, Delivery("foo", Received(map["a" := Num(1)])));
      var body := map["a" := Num(1), "topic" := Str("foo")];
      && s.outbox == [Forward("foo", body)]
      && s.lastSeen == Some(body)
      && Deliver(cfg, devMode, s.outbox[0], [Forwarder.Connected])
        == [ Forwarder.Dial(Endpoint.DialAddress(cfg["foo"]), Forwarder.Connected),
             Forwarder.Close,
             Forwarder.Post(Endpoint.PostUrl(cfg["foo"], devMode), body, !devMode) ]
  {
    var body := map["a" := Num(1), "topic" := Str("foo")];
    assert Tag(map["a" := Num(1)], "foo") == body;
    assert Forwarder.Connected in [Forwarder.Connected];
  }
}
