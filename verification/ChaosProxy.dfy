/** The fault-injecting proxy: what it does to one request, and that the delivery machine takes all of it in. */
module ChaosProxy {
  import opened Options
  import opened Sender
  import D = Delivery

  datatype Fate = OutageBlocked | Dropped | Ambiguous | Forwarded

  // What the upstream server answers, or that it could not be reached, or that it took too long and may still be at
  // work.
  datatype Upstream = Answered(code: int) | Unreachable | TimedOut

  const CHAOS := 503
  const BAD_GATEWAY := 502

  function UpstreamCode(u: Upstream): int {
    if u.Answered? then u.code else BAD_GATEWAY
  }

  /** The status the client gets for a POST. */
  function SeenCode(fate: Fate, u: Upstream): int {
    if fate.Forwarded? then UpstreamCode(u) else CHAOS
  }

  class Proxy {
    var outage: bool
    var dropRate: real
    var ambiguousRate: real
    var forwarded: nat
    var dropped: nat
    var ambiguous: nat
    var outageBlocked: nat

    constructor (dropRate: real, ambiguousRate: real)
      ensures !outage && this.dropRate == dropRate && this.ambiguousRate == ambiguousRate
      ensures forwarded == dropped == ambiguous == outageBlocked == 0
    {
      outage, this.dropRate, this.ambiguousRate := false, dropRate, ambiguousRate;
      forwarded, dropped, ambiguous, outageBlocked := 0, 0, 0, 0;
    }

    /** One request; dropCoin and hideCoin are the random draws, upstream what the server says if it is asked. */
    method HandleOne(isPost: bool, dropCoin: real, hideCoin: real, upstream: Upstream) returns (fate: Fate, code: int)
      modifies this`forwarded, this`dropped, this`ambiguous, this`outageBlocked
      ensures code == SeenCode(fate, upstream)
      ensures fate.OutageBlocked? <==> outage
      ensures fate.Dropped? <==> !outage && dropCoin < dropRate
      ensures fate.Ambiguous? <==> !outage && dropCoin >= dropRate && isPost && hideCoin < ambiguousRate
      ensures forwarded + dropped + ambiguous + outageBlocked ==
              old(forwarded) + old(dropped) + old(ambiguous) + old(outageBlocked) + 1
      ensures forwarded == old(forwarded) + (if fate.Forwarded? then 1 else 0)
      ensures dropped == old(dropped) + (if fate.Dropped? then 1 else 0)
      ensures ambiguous == old(ambiguous) + (if fate.Ambiguous? then 1 else 0)
    {
      if outage {
        outageBlocked := outageBlocked + 1;
        return OutageBlocked, CHAOS;
      }
      if dropCoin < dropRate {
        dropped := dropped + 1;
        return Dropped, CHAOS;
      }
      code := UpstreamCode(upstream);
      if isPost && hideCoin < ambiguousRate {
        ambiguous := ambiguous + 1;
        return Ambiguous, CHAOS;
      }
      forwarded := forwarded + 1;
      fate := Forwarded;
    }
  }

  /** A verdict that settles a batch is always the server's own: the proxy's answers are transient. */
  lemma OnlyTheServerSettles(fate: Fate, upstream: Upstream)
    ensures Classify(Status(SeenCode(fate, upstream))) != TRANSIENT ==> fate.Forwarded? && upstream.Answered?
    ensures fate.Forwarded? && upstream.Answered? ==> SeenCode(fate, upstream) == upstream.code
  {
  }

  /** The proxy's treatment of a request, in the delivery machine's steps. */
  function StepsOf(fate: Fate, upstream: Upstream, r: nat): seq<D.Step> {
    match fate
    case OutageBlocked => [D.Lose(r), D.Miss]
    case Dropped => [D.Lose(r), D.Miss]
    case Ambiguous => [D.Miss]
    case Forwarded =>
      if upstream.Answered? then [D.Hear]
      else if upstream.Unreachable? then [D.Lose(r), D.Miss]
      else [D.Miss]
  }

  ghost function RunSteps(c: D.Config, s: D.State, steps: seq<D.Step>): D.State
    decreases |steps|
  {
    if steps == [] then s else RunSteps(c, D.Do(c, s, steps[0]), steps[1..])
  }

  /**
   * Every behaviour of the proxy is one the delivery machine allows: from a sender waiting for a reply, those steps
   * leave the sender where the status that the proxy hands out would take it, and the table as it was.
   */
  lemma ProxyIsCovered(c: D.Config, s: D.State, fate: Fate, upstream: Upstream)
    requires s.sender.Waiting? && s.sender.request in s.flight
    requires upstream.Answered? ==> s.flight[s.sender.request].reply == Some(upstream.code)
    ensures var s' := RunSteps(c, s, StepsOf(fate, upstream, s.sender.request));
            var verdict := Classify(Status(SeenCode(fate, upstream)));
            && s'.sender == (if verdict == TRANSIENT then D.Retry(s.sender) else D.Removing(s.sender.paths, verdict))
            && s'.table == s.table && s'.files == s.files
            && (s.sender.request in s'.flight <==> fate.Ambiguous? || (fate.Forwarded? && upstream.TimedOut?))
  {
    var r := s.sender.request;
    var steps := StepsOf(fate, upstream, r);
    if |steps| == 2 {
      var s1 := D.Do(c, s, steps[0]);
      assert steps[1..] == [D.Miss] && [D.Miss][1..] == [];
      assert RunSteps(c, s1, [D.Miss]) == RunSteps(c, D.Do(c, s1, D.Miss), []);
    } else {
      assert steps[1..] == [];
      assert RunSteps(c, D.Do(c, s, steps[0]), []) == D.Do(c, s, steps[0]);
    }
  }
}
