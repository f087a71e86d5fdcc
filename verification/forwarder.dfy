/** Delivery of one event to its external endpoint: the readiness probe that
    blocks until the endpoint accepts a connection, then a single POST. */
module Forwarder {
  import opened Wrappers
  import opened Messages
  import opened Endpoint

  /** Result of one bare TCP dial of the probe address. */
  datatype DialOutcome = Refused | Connected

  /** One observable step of a delivery. */
  datatype Action =
    | Dial(address: string, outcome: DialOutcome)
    | Sleep                                         // pause after a refused dial
    | Close                                         // closing the probe connection
    | Post(url: string, body: Metadata, secured: bool)

  /** Index of the first successful dial, if any. */
  function FirstConnected(dials: seq<DialOutcome>): (r: Option<nat>)
    ensures r.Some? ==> r.value < |dials| && dials[r.value] == Connected
    ensures r.Some? ==> forall j :: 0 <= j < r.value ==> dials[j] == Refused
    ensures r.None? <==> Connected !in dials
  {
    if |dials| == 0 then None
    else if dials[0] == Connected then Some(0)
    else
      match FirstConnected(dials[1..])
      case None => None
      case Some(k) => Some(k + 1)
  }

  /** Number of refused dials the probe makes: those before the first success,
      or all of them when none succeeds. */
  function Failures(dials: seq<DialOutcome>): nat
  {
    match FirstConnected(dials)
    case Some(k) => k
    case None => |dials|
  }

  /** The probe loop over the dial outcomes the network hands it. It dials
      until one succeeds; when the outcomes run out without a success the
      loop in the bridge would go on dialling forever, and no POST follows. */
  method WaitUntilReachable(address: string, dials: seq<DialOutcome>) returns (attempts: nat, sleeps: nat, present: bool)
    ensures present <==> Connected in dials
    ensures present ==> attempts == FirstConnected(dials).value + 1
    ensures !present ==> attempts == |dials|
    ensures sleeps == Failures(dials)
    ensures forall j :: 0 <= j < sleeps ==> dials[j] == Refused
    ensures var t := ProbeTrace(address, dials);
      && attempts == Occurrences(t, Dial(address, Refused)) + Occurrences(t, Dial(address, Connected))
      && sleeps == Occurrences(t, Sleep)
  {
    attempts, sleeps, present := 0, 0, false;
    while !present && attempts < |dials|
      invariant sleeps <= attempts <= |dials|
      invariant forall j :: 0 <= j < sleeps ==> dials[j] == Refused
      invariant present ==> attempts >= 1 && dials[attempts - 1] == Connected
      invariant sleeps == if present then attempts - 1 else attempts
      decreases |dials| - attempts, !present
    {
      if dials[attempts] == Refused {
        sleeps := sleeps + 1;
      } else {
        present := true;
      }
      attempts := attempts + 1;
    }
    if present {
      FirstConnectedAt(dials, attempts - 1);
    } else {
      assert forall j :: 0 <= j < |dials| ==> dials[j] == Refused;
    }
    ProbeTraceCounts(address, dials);
  }

  /** A success preceded only by refusals is the first success. */
  lemma FirstConnectedAt(dials: seq<DialOutcome>, k: nat)
    requires k < |dials| && dials[k] == Connected
    requires forall j :: 0 <= j < k ==> dials[j] == Refused
    ensures FirstConnected(dials) == Some(k)
  {
    var r := FirstConnected(dials);
    assert dials[k] in dials;
  }

  /** The actions of the probe loop: a refused dial is followed by a sleep,
      the first successful one by closing the probe connection. */
  function ProbeTrace(address: string, dials: seq<DialOutcome>): (t: seq<Action>)
    ensures |t| == 2 * (Failures(dials) + if Connected in dials then 1 else 0)
  {
    if |dials| == 0 then []
    else if dials[0] == Connected then [Dial(address, Connected), Close]
    else [Dial(address, Refused), Sleep] + ProbeTrace(address, dials[1..])
  }

  /** One call of the forwarder: probe the address derived from the
      un-rewritten endpoint, then POST the body once the probe succeeds,
      with the credential-bundle TLS client unless in development mode. */
  function PostMetaData(endpoint: string, devMode: bool, body: Metadata, dials: seq<DialOutcome>): (t: seq<Action>)
    ensures Connected in dials ==> |t| > 0 && t[|t| - 1] == Post(PostUrl(endpoint, devMode), body, !devMode)
    ensures Connected !in dials ==> forall i :: 0 <= i < |t| ==> !t[i].Post?
  {
    ProbeTraceOrder(DialAddress(endpoint), dials);
    ProbeTrace(DialAddress(endpoint), dials)
      + if Connected in dials then [Post(PostUrl(endpoint, devMode), body, !devMode)] else []
  }

  /** Number of times `a` appears in `t`. */
  function Occurrences(t: seq<Action>, a: Action): nat
  {
    if |t| == 0 then 0
    else (if t[0] == a then 1 else 0) + Occurrences(t[1..], a)
  }

  lemma {:induction false} OccurrencesAppend(t: seq<Action>, u: seq<Action>, a: Action)
    ensures Occurrences(t + u, a) == Occurrences(t, a) + Occurrences(u, a)
  {
    if |t| != 0 {
      assert (t + u)[0] == t[0];
      assert (t + u)[1..] == t[1..] + u;
      OccurrencesAppend(t[1..], u, a);
    } else {
      assert t + u == u;
    }
  }

  /** The probe never posts. */
  lemma {:induction false} ProbeNeverPosts(address: string, dials: seq<DialOutcome>)
    ensures forall i :: 0 <= i < |ProbeTrace(address, dials)| ==> !ProbeTrace(address, dials)[i].Post?
  {
    if |dials| != 0 && dials[0] == Refused {
      var t := ProbeTrace(address, dials);
      var tail := ProbeTrace(address, dials[1..]);
      ProbeNeverPosts(address, dials[1..]);
      assert t == [Dial(address, Refused), Sleep] + tail;
      forall i | 2 <= i < |t|
        ensures !t[i].Post?
      {
        assert t[i] == tail[i - 2];
      }
    }
  }

  /** Every dial of the probe goes to `address`. */
  lemma {:induction false} ProbeDialsOnlyAddress(address: string, dials: seq<DialOutcome>)
    ensures forall i :: 0 <= i < |ProbeTrace(address, dials)| && ProbeTrace(address, dials)[i].Dial? ==>
      ProbeTrace(address, dials)[i].address == address
  {
    if |dials| != 0 && dials[0] == Refused {
      var t := ProbeTrace(address, dials);
      var tail := ProbeTrace(address, dials[1..]);
      ProbeDialsOnlyAddress(address, dials[1..]);
      assert t == [Dial(address, Refused), Sleep] + tail;
      forall i | 2 <= i < |t|
        ensures t[i].Dial? ==> t[i].address == address
      {
        assert t[i] == tail[i - 2];
      }
    }
  }

  /** Every refused dial of the probe is directly followed by a sleep. */
  lemma {:induction false} ProbeSleepsAfterRefusal(address: string, dials: seq<DialOutcome>)
    ensures forall i :: 0 <= i < |ProbeTrace(address, dials)| && ProbeTrace(address, dials)[i] == Dial(address, Refused) ==>
      i + 1 < |ProbeTrace(address, dials)| && ProbeTrace(address, dials)[i + 1] == Sleep
  {
    if |dials| != 0 && dials[0] == Refused {
      var t := ProbeTrace(address, dials);
      var tail := ProbeTrace(address, dials[1..]);
      ProbeSleepsAfterRefusal(address, dials[1..]);
      assert t == [Dial(address, Refused), Sleep] + tail;
      forall i | 2 <= i < |t|
        ensures t[i] == Dial(address, Refused) ==> i + 1 < |t| && t[i + 1] == Sleep
      {
        assert t[i] == tail[i - 2];
      }
    }
  }

  /** The probe ends with a successful dial and its close exactly when some
      dial succeeds. */
  lemma {:induction false} ProbeEndsWithSuccess(address: string, dials: seq<DialOutcome>)
    ensures var t := ProbeTrace(address, dials);
      Connected in dials <==> |t| >= 2 && t[|t| - 2] == Dial(address, Connected) && t[|t| - 1] == Close
  {
    if |dials| != 0 && dials[0] == Refused {
      var t := ProbeTrace(address, dials);
      var tail := ProbeTrace(address, dials[1..]);
      ProbeEndsWithSuccess(address, dials[1..]);
      assert t == [Dial(address, Refused), Sleep] + tail;
      assert Connected in dials <==> Connected in dials[1..] by {
        assert dials == [dials[0]] + dials[1..];
      }
      if |tail| >= 2 {
        assert t[|t| - 2] == tail[|tail| - 2] && t[|t| - 1] == tail[|tail| - 1];
      } else {
        assert |tail| == 0;
      }
    }
  }

  /** The probe only dials `address`, follows every refused dial by a sleep,
      never posts, and ends with the successful dial and its close exactly
      when some dial succeeds. */
  lemma ProbeTraceOrder(address: string, dials: seq<DialOutcome>)
    ensures var t := ProbeTrace(address, dials);
      forall i :: 0 <= i < |t| ==> !t[i].Post?
    ensures var t := ProbeTrace(address, dials);
      forall i :: 0 <= i < |t| && t[i].Dial? ==> t[i].address == address
    ensures var t := ProbeTrace(address, dials);
      forall i :: 0 <= i < |t| && t[i] == Dial(address, Refused) ==> i + 1 < |t| && t[i + 1] == Sleep
    ensures var t := ProbeTrace(address, dials);
      Connected in dials <==> |t| >= 2 && t[|t| - 2] == Dial(address, Connected) && t[|t| - 1] == Close
  {
    ProbeNeverPosts(address, dials);
    ProbeDialsOnlyAddress(address, dials);
    ProbeSleepsAfterRefusal(address, dials);
    ProbeEndsWithSuccess(address, dials);
  }

  /** The probe makes one refused dial and one sleep per refusal, and one
      successful dial and one close when some dial succeeds. */
  lemma {:induction false} ProbeTraceCounts(address: string, dials: seq<DialOutcome>)
    ensures var t := ProbeTrace(address, dials);
      && Occurrences(t, Dial(address, Refused)) == Failures(dials)
      && Occurrences(t, Sleep) == Failures(dials)
      && Occurrences(t, Dial(address, Connected)) == (if Connected in dials then 1 else 0)
      && Occurrences(t, Close) == (if Connected in dials then 1 else 0)
  {
    var t := ProbeTrace(address, dials);
    if |dials| == 0 {
    } else if dials[0] == Connected {
      assert FirstConnected(dials) == Some(0);
      assert t[1..] == [Close];
      assert t[1..][1..] == [];
      assert Occurrences(t[1..], Dial(address, Refused)) == 0;
      assert Occurrences(t[1..], Dial(address, Connected)) == 0;
      assert Occurrences(t[1..], Sleep) == 0;
      assert Occurrences(t[1..], Close) == 1;
    } else {
      var head := [Dial(address, Refused), Sleep];
      var tail := ProbeTrace(address, dials[1..]);
      ProbeTraceCounts(address, dials[1..]);
      assert t == head + tail;
      assert Connected in dials <==> Connected in dials[1..] by {
        assert dials == [dials[0]] + dials[1..];
      }
      OccurrencesAppend(head, tail, Dial(address, Refused));
      OccurrencesAppend(head, tail, Sleep);
      OccurrencesAppend(head, tail, Dial(address, Connected));
      OccurrencesAppend(head, tail, Close);
    }
  }

  /** No POST is made before a dial succeeds: the POST happens iff some dial
      succeeds, it is the last action, it directly follows the first
      successful dial and its close, and it carries the body unchanged to
      the resolved URL, with the credential-bundle TLS client iff not in
      development mode. */
  lemma PostFollowsFirstSuccess(endpoint: string, devMode: bool, body: Metadata, dials: seq<DialOutcome>)
    ensures var t := PostMetaData(endpoint, devMode, body, dials);
      && ((exists i :: 0 <= i < |t| && t[i].Post?) <==> Connected in dials)
      && (forall i :: 0 <= i < |t| && t[i].Post? ==>
            && i == |t| - 1
            && i >= 2
            && t[i - 2] == Dial(DialAddress(endpoint), Connected)
            && t[i - 1] == Close
            && t[i] == Post(PostUrl(endpoint, devMode), body, !devMode))
      && Occurrences(t, Sleep) == Failures(dials)
  {
    var address := DialAddress(endpoint);
    var probe := ProbeTrace(address, dials);
    var t := PostMetaData(endpoint, devMode, body, dials);
    ProbeTraceOrder(address, dials);
    ProbeTraceCounts(address, dials);
    if Connected in dials {
      var post := Post(PostUrl(endpoint, devMode), body, !devMode);
      assert t == probe + [post];
      assert t[|t| - 1].Post?;
      OccurrencesAppend(probe, [post], Sleep);
    } else {
      assert t == probe;
    }
  }
}
