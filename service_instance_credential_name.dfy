/**
 * ServiceInstanceCredentialName: the client-side name of a credential holding
 * service instance binding credentials, and the fluent builder that stages its
 * four caller-supplied segments.
 */
module ServiceInstanceCredentialNames {
  import opened Wrappers
  import CredentialPath

  /** A Java `String` reference: `None` is `null`. */
  type JString = Option<string>

  /** The leading segment that marks a service instance credential name. */
  const Discriminator: string := "c"

  /** The immutable name value: its ordered segments, holes included. */
  datatype ServiceInstanceCredentialName = ServiceInstanceCredentialName(segments: seq<JString>)

  /**
   * The package-private four-argument constructor: the discriminator, then the
   * four arguments in their fixed order. Nothing is checked, so a null argument
   * leaves a hole.
   */
  function Make(serviceBrokerName: JString, serviceOfferingName: JString,
                serviceBindingId: JString, credentialName: JString): (n: ServiceInstanceCredentialName)
    ensures |n.segments| == 5
    ensures n.segments[0] == Some(Discriminator)
    ensures n.segments[1..] == [serviceBrokerName, serviceOfferingName, serviceBindingId, credentialName]
  {
    ServiceInstanceCredentialName([Some(Discriminator), serviceBrokerName, serviceOfferingName,
                                   serviceBindingId, credentialName])
  }

  /** Names are values: two constructed names are equal exactly when their four arguments are. */
  lemma MakeInjective(b1: JString, o1: JString, i1: JString, c1: JString,
                      b2: JString, o2: JString, i2: JString, c2: JString)
    ensures Make(b1, o1, i1, c1) == Make(b2, o2, i2, c2) <==> (b1 == b2 && o1 == o2 && i1 == i2 && c1 == c2)
  {
  }

  /** Every segment is present (no null hole). */
  predicate Complete(n: ServiceInstanceCredentialName) {
    forall k :: 0 <= k < |n.segments| ==> n.segments[k].Some?
  }

  /** The segment strings of a name without holes. */
  function Values(segments: seq<JString>): (r: seq<string>)
    requires forall k :: 0 <= k < |segments| ==> segments[k].Some?
    ensures |r| == |segments|
    ensures forall k :: 0 <= k < |r| ==> segments[k] == Some(r[k])
  {
    seq(|segments|, k requires 0 <= k < |segments| => segments[k].value)
  }

  /** The combined full name of a name without holes, in the documented form. */
  function FullName(n: ServiceInstanceCredentialName): (path: string)
    requires Complete(n)
    ensures path == [] <==> n.segments == []
    ensures n.segments != [] ==> path[0] == '/'
  {
    CredentialPath.Join(Values(n.segments))
  }

  /** The full name of a name built from four strings is `/c/broker/offering/binding/credential`. */
  lemma FullNameForm(b: string, o: string, i: string, c: string)
    ensures Complete(Make(Some(b), Some(o), Some(i), Some(c)))
    ensures FullName(Make(Some(b), Some(o), Some(i), Some(c)))
            == "/" + Discriminator + "/" + b + "/" + o + "/" + i + "/" + c
  {
    var n := Make(Some(b), Some(o), Some(i), Some(c));
    assert Values(n.segments) == [Discriminator, b, o, i, c];
    var segs := [Discriminator, b, o, i, c];
    assert segs[1..] == [b, o, i, c];
    assert segs[1..][1..] == [o, i, c];
    assert segs[1..][1..][1..] == [i, c];
    assert segs[1..][1..][1..][1..] == [c];
    assert CredentialPath.Join([c]) == "/" + c;
    assert CredentialPath.Join([i, c]) == "/" + i + "/" + c;
    assert CredentialPath.Join([o, i, c]) == "/" + o + "/" + i + "/" + c;
    assert CredentialPath.Join([b, o, i, c]) == "/" + b + "/" + o + "/" + i + "/" + c;
  }

  /**
   * Two names without holes whose segments contain no '/' are equal exactly
   * when their full names are.
   */
  lemma FullNameIdentifies(n1: ServiceInstanceCredentialName, n2: ServiceInstanceCredentialName)
    requires Complete(n1) && Complete(n2)
    requires CredentialPath.AllSlashFree(Values(n1.segments))
    requires CredentialPath.AllSlashFree(Values(n2.segments))
    ensures FullName(n1) == FullName(n2) <==> n1 == n2
  {
    CredentialPath.JoinInjective(Values(n1.segments), Values(n2.segments));
    if FullName(n1) == FullName(n2) {
      var v1, v2 := Values(n1.segments), Values(n2.segments);
      assert |n1.segments| == |v1| == |v2| == |n2.segments|;
      forall k | 0 <= k < |n1.segments| ensures n1.segments[k] == n2.segments[k] {
        assert n1.segments[k] == Some(v1[k]) && n2.segments[k] == Some(v2[k]);
      }
      assert n1.segments == n2.segments;
    }
  }

  /**
   * Without slash-freedom the full name is ambiguous: a '/' moved from the end
   * of the broker name to the start of the offering name gives a different
   * name with the same full name. The setters do not reject '/'.
   */
  lemma SlashCollision(x: string, y: string, o: string, i: string, c: string)
    ensures Make(Some(x + "/" + y), Some(o), Some(i), Some(c)) != Make(Some(x), Some(y + "/" + o), Some(i), Some(c))
    ensures FullName(Make(Some(x + "/" + y), Some(o), Some(i), Some(c)))
            == FullName(Make(Some(x), Some(y + "/" + o), Some(i), Some(c)))
  {
    var n1 := Make(Some(x + "/" + y), Some(o), Some(i), Some(c));
    assert n1.segments[1] == Some(x + "/" + y) && |x + "/" + y| != |x|;
    FullNameForm(x + "/" + y, o, i, c);
    FullNameForm(x, y + "/" + o, i, c);
    assert "/" + Discriminator + "/" + (x + "/" + y) + "/" + o
           == "/" + Discriminator + "/" + x + "/" + (y + "/" + o);
  }

  // The builder's staged state, as a value.

  /** The four caller-supplied segments, one per builder setter. */
  datatype Segment = ServiceBroker | ServiceOffering | ServiceBinding | Credential

  /** Where a caller-supplied segment sits in the name; position 0 holds the discriminator. */
  function Position(segment: Segment): (p: nat)
    ensures 1 <= p <= 4
  {
    match segment
    case ServiceBroker => 1
    case ServiceOffering => 2
    case ServiceBinding => 3
    case Credential => 4
  }

  /** The values of the builder's four fields. */
  datatype Staged = Staged(serviceBrokerName: JString, serviceOfferingName: JString,
                           serviceBindingId: JString, credentialName: JString)

  function Get(s: Staged, segment: Segment): JString {
    match segment
    case ServiceBroker => s.serviceBrokerName
    case ServiceOffering => s.serviceOfferingName
    case ServiceBinding => s.serviceBindingId
    case Credential => s.credentialName
  }

  /** Staged states are determined by what they give each segment. */
  lemma StagedExtensional(s: Staged, t: Staged)
    requires forall segment :: Get(s, segment) == Get(t, segment)
    ensures s == t
  {
    assert Get(s, ServiceBroker) == Get(t, ServiceBroker);
    assert Get(s, ServiceOffering) == Get(t, ServiceOffering);
    assert Get(s, ServiceBinding) == Get(t, ServiceBinding);
    assert Get(s, Credential) == Get(t, Credential);
  }

  /** The state of a fresh builder: Java leaves all four fields null. */
  function Unset(): (s: Staged)
    ensures forall segment :: Get(s, segment) == None
  {
    Staged(None, None, None, None)
  }

  /** The assignment a successful setter makes. */
  function Set(s: Staged, segment: Segment, value: string): (t: Staged)
    ensures Get(t, segment) == Some(value)
    ensures forall other :: other != segment ==> Get(t, other) == Get(s, other)
  {
    match segment
    case ServiceBroker => s.(serviceBrokerName := Some(value))
    case ServiceOffering => s.(serviceOfferingName := Some(value))
    case ServiceBinding => s.(serviceBindingId := Some(value))
    case Credential => s.(credentialName := Some(value))
  }

  /** Setting one segment twice keeps only the second value. */
  lemma SetLastWriteWins(s: Staged, segment: Segment, first: string, second: string)
    ensures Set(Set(s, segment, first), segment, second) == Set(s, segment, second)
  {
  }

  /** Setters of different segments commute. */
  lemma SetCommutes(s: Staged, segment: Segment, value: string, other: Segment, otherValue: string)
    requires segment != other
    ensures Set(Set(s, segment, value), other, otherValue) == Set(Set(s, other, otherValue), segment, value)
  {
  }

  /** What build() makes of a staged state. */
  function BuildFrom(s: Staged): (n: ServiceInstanceCredentialName)
    ensures |n.segments| == 5 && n.segments[0] == Some(Discriminator)
    ensures forall segment :: n.segments[Position(segment)] == Get(s, segment)
  {
    Make(s.serviceBrokerName, s.serviceOfferingName, s.serviceBindingId, s.credentialName)
  }

  predicate AllSet(s: Staged) {
    forall segment :: Get(s, segment).Some?
  }

  /** build() checks nothing: the name has no hole exactly when all four fields are set. */
  lemma BuildCompleteIffAllSet(s: Staged)
    ensures Complete(BuildFrom(s)) <==> AllSet(s)
  {
    var n := BuildFrom(s);
    if AllSet(s) {
      assert Get(s, ServiceBroker).Some? && Get(s, ServiceOffering).Some?;
      assert Get(s, ServiceBinding).Some? && Get(s, Credential).Some?;
      forall k | 0 <= k < |n.segments| ensures n.segments[k].Some? {
        if k == 1 { assert n.segments[Position(ServiceBroker)] == Get(s, ServiceBroker); }
        else if k == 2 { assert n.segments[Position(ServiceOffering)] == Get(s, ServiceOffering); }
        else if k == 3 { assert n.segments[Position(ServiceBinding)] == Get(s, ServiceBinding); }
        else if k == 4 { assert n.segments[Position(Credential)] == Get(s, Credential); }
      }
    }
    if Complete(n) {
      forall segment ensures Get(s, segment).Some? {
        assert n.segments[Position(segment)].Some?;
      }
    }
  }

  /** One setter call: which segment, with which (possibly null) argument. */
  datatype Call = Call(segment: Segment, value: JString)

  /** The state after one or more setter calls and the segment whose setter threw, if one did. */
  datatype ChainResult = ChainResult(staged: Staged, rejected: Option<Segment>)

  /**
   * One setter call: a null argument is rejected before any assignment, so the
   * state is unchanged; otherwise only the named segment is assigned.
   */
  function Apply(s: Staged, call: Call): (r: ChainResult)
    ensures r.rejected.None? <==> call.value.Some?
    ensures r.rejected.Some? ==> r.rejected == Some(call.segment) && r.staged == s
    ensures call.value.Some? ==> r.staged == Set(s, call.segment, call.value.value)
  {
    match call.value
    case None => ChainResult(s, Some(call.segment))
    case Some(v) => ChainResult(Set(s, call.segment, v), None)
  }

  /** A setter either returns its builder or throws IllegalArgumentException for that segment. */
  datatype SetterResult =
    | Chained(builder: ServiceInstanceCredentialNameBuilder)
    | IllegalArgument(segment: Segment)

  /** ServiceInstanceCredentialNameBuilder: four mutable fields, initially null. */
  class ServiceInstanceCredentialNameBuilder {
    var serviceBrokerName: JString
    var serviceOfferingName: JString
    var serviceBindingId: JString
    var credentialName: JString

    /** The four fields as a value. */
    function Snapshot(): Staged
      reads this
    {
      Staged(serviceBrokerName, serviceOfferingName, serviceBindingId, credentialName)
    }

    constructor ()
      ensures Snapshot() == Unset()
    {
      serviceBrokerName := None;
      serviceOfferingName := None;
      serviceBindingId := None;
      credentialName := None;
    }

    method ServiceBrokerName(value: JString) returns (r: SetterResult)
      modifies this
      ensures Snapshot() == Apply(old(Snapshot()), Call(ServiceBroker, value)).staged
      ensures r == if value.Some? then Chained(this) else IllegalArgument(ServiceBroker)
    {
      if value.None? {
        return IllegalArgument(ServiceBroker);
      }
      serviceBrokerName := value;
      return Chained(this);
    }

    method ServiceOfferingName(value: JString) returns (r: SetterResult)
      modifies this
      ensures Snapshot() == Apply(old(Snapshot()), Call(ServiceOffering, value)).staged
      ensures r == if value.Some? then Chained(this) else IllegalArgument(ServiceOffering)
    {
      if value.None? {
        return IllegalArgument(ServiceOffering);
      }
      serviceOfferingName := value;
      return Chained(this);
    }

    method ServiceBindingId(value: JString) returns (r: SetterResult)
      modifies this
      ensures Snapshot() == Apply(old(Snapshot()), Call(ServiceBinding, value)).staged
      ensures r == if value.Some? then Chained(this) else IllegalArgument(ServiceBinding)
    {
      if value.None? {
        return IllegalArgument(ServiceBinding);
      }
      serviceBindingId := value;
      return Chained(this);
    }

    method CredentialName(value: JString) returns (r: SetterResult)
      modifies this
      ensures Snapshot() == Apply(old(Snapshot()), Call(Credential, value)).staged
      ensures r == if value.Some? then Chained(this) else IllegalArgument(Credential)
    {
      if value.None? {
        return IllegalArgument(Credential);
      }
      credentialName := value;
      return Chained(this);
    }

    /** build(): a name from whatever the fields currently hold. */
    function Build(): (n: ServiceInstanceCredentialName)
      reads this
      ensures n.segments == [Some(Discriminator), serviceBrokerName, serviceOfferingName,
                             serviceBindingId, credentialName]
    {
      BuildFrom(Snapshot())
    }
  }

  /** The static builder() factory: a fresh builder with nothing staged. */
  method Builder() returns (b: ServiceInstanceCredentialNameBuilder)
    ensures fresh(b) && b.Snapshot() == Unset()
  {
    b := new ServiceInstanceCredentialNameBuilder();
  }

  /**
   * The documented fluent use: one builder, the four setters chained on the
   * builder each returns, then build().
   */
  method BuildChained(b: string, o: string, i: string, c: string) returns (n: ServiceInstanceCredentialName)
    ensures n == Make(Some(b), Some(o), Some(i), Some(c))
  {
    var builder := Builder();
    var r := builder.ServiceBrokerName(Some(b));
    r := r.builder.ServiceOfferingName(Some(o));
    r := r.builder.ServiceBindingId(Some(i));
    r := r.builder.CredentialName(Some(c));
    n := r.builder.Build();
  }
}
