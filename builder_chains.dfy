/**
 * Chains of setter calls on one ServiceInstanceCredentialNameBuilder. Each
 * setter returns the builder it was called on, so a chain acts on one object:
 * the calls run left to right, and the first null argument throws, leaving the
 * earlier assignments in place and skipping the rest.
 */
module BuilderChains {
  import opened Wrappers
  import opened ServiceInstanceCredentialNames

  /** The effect of a chain of setter calls on a builder in state `s`. */
  function Run(s: Staged, calls: seq<Call>): (r: ChainResult)
    ensures r.rejected.None? <==> NonNull(calls)
    decreases |calls|
  {
    if calls == [] then ChainResult(s, None)
    else
      var step := Apply(s, calls[0]);
      if step.rejected.Some? then step else Run(step.staged, calls[1..])
  }

  predicate NonNull(calls: seq<Call>) {
    forall k :: 0 <= k < |calls| ==> calls[k].value.Some?
  }

  predicate DistinctSegments(calls: seq<Call>) {
    forall j, k :: 0 <= j < k < |calls| ==> calls[j].segment != calls[k].segment
  }

  /** The argument of the last call in `calls` that names `segment`, if any call does. */
  function LastWrite(calls: seq<Call>, segment: Segment): JString {
    if calls == [] then None
    else
      var later := LastWrite(calls[1..], segment);
      if later.Some? then later
      else if calls[0].segment == segment then calls[0].value
      else None
  }

  /**
   * A chain without null arguments succeeds, and each segment then holds the
   * value of the last call that named it, or what it held before.
   */
  lemma {:induction false} RunReadsLastWrite(s: Staged, calls: seq<Call>, segment: Segment)
    requires NonNull(calls)
    ensures Run(s, calls).rejected == None
    ensures Get(Run(s, calls).staged, segment)
            == if LastWrite(calls, segment).Some? then LastWrite(calls, segment) else Get(s, segment)
    decreases |calls|
  {
    if calls != [] {
      var t := Apply(s, calls[0]).staged;
      assert NonNull(calls[1..]) by {
        forall k | 0 <= k < |calls[1..]| ensures calls[1..][k].value.Some? {
          assert calls[1..][k] == calls[k + 1];
        }
      }
      RunReadsLastWrite(t, calls[1..], segment);
    }
  }

  /** Without null arguments, the last write to a segment is one of the calls, and none means no call named it. */
  lemma {:induction false} LastWriteIsACall(calls: seq<Call>, segment: Segment)
    requires NonNull(calls)
    ensures LastWrite(calls, segment).Some? ==> Call(segment, LastWrite(calls, segment)) in calls
    ensures LastWrite(calls, segment).None? ==> forall k :: 0 <= k < |calls| ==> calls[k].segment != segment
  {
    if calls != [] {
      assert NonNull(calls[1..]) by {
        forall k | 0 <= k < |calls[1..]| ensures calls[1..][k].value.Some? {
          assert calls[1..][k] == calls[k + 1];
        }
      }
      LastWriteIsACall(calls[1..], segment);
      if LastWrite(calls, segment).None? {
        forall k | 0 <= k < |calls| ensures calls[k].segment != segment {
          if k > 0 { assert calls[k] == calls[1..][k - 1]; }
        }
      }
    }
  }

  /** When no two calls name the same segment, every call's value is the last write to its segment. */
  lemma {:induction false} LastWriteOfDistinct(calls: seq<Call>, segment: Segment, value: string)
    requires DistinctSegments(calls)
    requires Call(segment, Some(value)) in calls
    ensures LastWrite(calls, segment) == Some(value)
  {
    var tail := calls[1..];
    assert DistinctSegments(tail) by {
      forall j, k | 0 <= j < k < |tail| ensures tail[j].segment != tail[k].segment {
        assert tail[j] == calls[j + 1] && tail[k] == calls[k + 1];
      }
    }
    if calls[0] == Call(segment, Some(value)) {
      LastWriteNotNamed(tail, segment);
    } else {
      assert Call(segment, Some(value)) in tail;
      LastWriteOfDistinct(tail, segment, value);
    }
  }

  /** No call naming a segment means no last write to it. */
  lemma {:induction false} LastWriteNotNamed(calls: seq<Call>, segment: Segment)
    requires forall k :: 0 <= k < |calls| ==> calls[k].segment != segment
    ensures LastWrite(calls, segment) == None
  {
    if calls != [] {
      var tail := calls[1..];
      assert forall k :: 0 <= k < |tail| ==> tail[k] == calls[k + 1];
      LastWriteNotNamed(tail, segment);
    }
  }

  /**
   * The first null argument stops the chain: the builder keeps what the calls
   * before it assigned, and that setter's segment is reported.
   */
  lemma {:induction false} RunStopsAtNull(s: Staged, calls: seq<Call>, k: nat)
    requires k < |calls|
    requires NonNull(calls[..k])
    requires calls[k].value == None
    ensures Run(s, calls) == ChainResult(Run(s, calls[..k]).staged, Some(calls[k].segment))
    decreases k
  {
    if k > 0 {
      var t := Apply(s, calls[0]).staged;
      assert calls[..k][0] == calls[0];
      assert calls[0].value.Some?;
      var before := calls[1..][..k - 1];
      assert NonNull(before) by {
        forall j | 0 <= j < |before| ensures before[j].value.Some? {
          assert before[j] == calls[..k][j + 1];
        }
      }
      assert calls[..k][1..] == before;
      assert Run(s, calls[..k]) == Run(t, before);
      RunStopsAtNull(t, calls[1..], k - 1);
    }
  }

  /**
   * Setter calls that name distinct segments with non-null arguments give the
   * same builder state in any order.
   */
  lemma OrderIndependent(s: Staged, calls: seq<Call>, reordered: seq<Call>)
    requires NonNull(calls) && DistinctSegments(calls)
    requires multiset(calls) == multiset(reordered)
    ensures Run(s, calls) == Run(s, reordered)
  {
    assert forall x :: x in calls <==> x in reordered by {
      forall x ensures x in calls <==> x in reordered {
        assert x in calls <==> x in multiset(calls);
        assert x in reordered <==> x in multiset(reordered);
      }
    }
    assert NonNull(reordered) by {
      forall k | 0 <= k < |reordered| ensures reordered[k].value.Some? {
        assert reordered[k] in calls;
      }
    }
    forall segment ensures Get(Run(s, calls).staged, segment) == Get(Run(s, reordered).staged, segment) {
      RunReadsLastWrite(s, calls, segment);
      RunReadsLastWrite(s, reordered, segment);
      SameLastWrite(calls, reordered, segment);
    }
    StagedExtensional(Run(s, calls).staged, Run(s, reordered).staged);
  }

  /** Both orders agree on the last write to each segment. */
  lemma SameLastWrite(calls: seq<Call>, reordered: seq<Call>, segment: Segment)
    requires NonNull(calls) && NonNull(reordered) && DistinctSegments(calls)
    requires forall x :: x in calls <==> x in reordered
    ensures LastWrite(calls, segment) == LastWrite(reordered, segment)
  {
    LastWriteIsACall(calls, segment);
    LastWriteIsACall(reordered, segment);
    var w := LastWrite(reordered, segment);
    if w.Some? {
      LastWriteOfDistinct(calls, segment, w.value);
    } else {
      forall k | 0 <= k < |calls| ensures calls[k].segment != segment {
        assert calls[k] in reordered;
      }
      LastWriteNotNamed(calls, segment);
    }
  }

  /** Some call in `calls` is a setter of `segment`. */
  predicate Names(calls: seq<Call>, segment: Segment) {
    exists k :: 0 <= k < |calls| && calls[k].segment == segment
  }

  /** A chain without nulls on a fresh builder sets all four fields exactly when it names every segment. */
  lemma ChainSetsAll(calls: seq<Call>)
    requires NonNull(calls)
    ensures AllSet(Run(Unset(), calls).staged)
            <==> forall segment :: Names(calls, segment)
  {
    forall segment
      ensures Get(Run(Unset(), calls).staged, segment).Some? <==> Names(calls, segment)
    {
      RunReadsLastWrite(Unset(), calls, segment);
      LastWriteIsACall(calls, segment);
      var w := LastWrite(calls, segment);
      if w.Some? {
        var k :| 0 <= k < |calls| && calls[k] == Call(segment, w);
        assert calls[k].segment == segment;
      }
    }
  }

  /** A chain extended by one call, when the chain so far has no null argument. */
  lemma {:induction false} RunSnoc(s: Staged, calls: seq<Call>, call: Call)
    requires NonNull(calls)
    ensures Run(s, calls + [call]) == Apply(Run(s, calls).staged, call)
    decreases |calls|
  {
    if calls != [] {
      var tail := calls[1..];
      assert (calls + [call])[1..] == tail + [call];
      assert NonNull(tail) by {
        forall k | 0 <= k < |tail| ensures tail[k].value.Some? {
          assert tail[k] == calls[k + 1];
        }
      }
      RunSnoc(Apply(s, calls[0]).staged, tail, call);
    }
  }

  /**
   * Applies the setter calls in order to one builder, as a chain of fluent
   * calls does, stopping at the first setter that throws.
   */
  method ApplyChain(b: ServiceInstanceCredentialNameBuilder, calls: seq<Call>) returns (r: SetterResult)
    modifies b
    ensures b.Snapshot() == Run(old(b.Snapshot()), calls).staged
    ensures r == match Run(old(b.Snapshot()), calls).rejected
                 case None => Chained(b)
                 case Some(segment) => IllegalArgument(segment)
  {
    ghost var start := b.Snapshot();
    r := Chained(b);
    var k := 0;
    while k < |calls|
      invariant 0 <= k <= |calls|
      invariant NonNull(calls[..k])
      invariant b.Snapshot() == Run(start, calls[..k]).staged
      invariant r == Chained(b)
    {
      var call := calls[k];
      match call.segment {
        case ServiceBroker => r := b.ServiceBrokerName(call.value);
        case ServiceOffering => r := b.ServiceOfferingName(call.value);
        case ServiceBinding => r := b.ServiceBindingId(call.value);
        case Credential => r := b.CredentialName(call.value);
      }
      if r.IllegalArgument? {
        RunStopsAtNull(start, calls, k);
        return;
      }
      assert calls[..k + 1] == calls[..k] + [call];
      RunSnoc(start, calls[..k], call);
      k := k + 1;
    }
    assert calls[..k] == calls;
  }

  /** The four setters, each called once with a non-null argument, in source order. */
  function FourSetters(b: string, o: string, i: string, c: string): seq<Call> {
    [Call(ServiceBroker, Some(b)), Call(ServiceOffering, Some(o)),
     Call(ServiceBinding, Some(i)), Call(Credential, Some(c))]
  }

  /**
   * On a fresh builder, the four setters in any order yield the name
   * `["c", b, o, i, c]`.
   */
  lemma FourSettersAnyOrder(b: string, o: string, i: string, c: string, calls: seq<Call>)
    requires multiset(calls) == multiset(FourSetters(b, o, i, c))
    ensures Run(Unset(), calls).rejected == None
    ensures BuildFrom(Run(Unset(), calls).staged) == Make(Some(b), Some(o), Some(i), Some(c))
  {
    var inOrder := FourSetters(b, o, i, c);
    var expected := Staged(Some(b), Some(o), Some(i), Some(c));
    assert NonNull(inOrder) && DistinctSegments(inOrder);
    OrderIndependent(Unset(), inOrder, calls);
    forall segment ensures Get(Run(Unset(), inOrder).staged, segment) == Get(expected, segment) {
      RunReadsLastWrite(Unset(), inOrder, segment);
      assert Call(segment, Get(expected, segment)) in inOrder;
      LastWriteOfDistinct(inOrder, segment, Get(expected, segment).value);
    }
    StagedExtensional(Run(Unset(), inOrder).staged, expected);
  }

  /** An instance of the documented form `/c/service-broker-name/service-offering-name/binding-GUID/credential-name`. */
  lemma DocumentedExample()
    ensures Complete(BuildFrom(Run(Unset(), FourSetters("broker1", "mysql", "abc-123", "password")).staged))
    ensures FullName(BuildFrom(Run(Unset(), FourSetters("broker1", "mysql", "abc-123", "password")).staged))
            == "/c/broker1/mysql/abc-123/password"
  {
    var calls := FourSetters("broker1", "mysql", "abc-123", "password");
    FourSettersAnyOrder("broker1", "mysql", "abc-123", "password", calls);
    var n := BuildFrom(Run(Unset(), calls).staged);
    assert n == Make(Some("broker1"), Some("mysql"), Some("abc-123"), Some("password"));
    FullNameForm("broker1", "mysql", "abc-123", "password");
    assert "/" + Discriminator + "/" + "broker1" == "/c/broker1";
    assert "/c/broker1" + "/" + "mysql" == "/c/broker1/mysql";
    assert "/c/broker1/mysql" + "/" + "abc-123" == "/c/broker1/mysql/abc-123";
    assert "/c/broker1/mysql/abc-123" + "/" + "password" == "/c/broker1/mysql/abc-123/password";
  }
}
