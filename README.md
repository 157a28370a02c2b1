# ServiceInstanceCredentialName in Dafny

This project models `ServiceInstanceCredentialName` from spring-credhub. It is the name a
client gives to a CredHub credential that holds service instance binding credentials. A
name has five segments in a fixed order:

- the discriminator `c`;
- the service broker name;
- the service offering name;
- the service binding id;
- the credential name.

Joined, they form the full name `/c/broker/offering/binding/credential`. Clients build
names with `ServiceInstanceCredentialNameBuilder`. It has four mutable fields, initially
`null`. Each has a setter that rejects a `null` argument, assigns its own field and returns
the same builder. `build()` turns whatever the fields hold into an immutable name.

The project has four modules:

- `Wrappers` (`wrappers.dfy`): `Option`, where `None` stands for a Java `null`.
- `CredentialPath` (`credential_path.dfy`): the joined form of a segment list, as the class
  documentation describes it, and the proof that the join is injective when no segment
  contains a `/`.
- `ServiceInstanceCredentialNames` (`service_instance_credential_name.dfy`):
  - the name value;
  - the package-private constructor `Make`;
  - the builder's four fields as a value (`Staged`) and the pure setter step `Apply`;
  - the builder class `ServiceInstanceCredentialNameBuilder`, whose setters carry
    `modifies this`, plus its `Build` function;
  - the static `builder()` factory, modelled as `Builder`.
- `BuilderChains` (`builder_chains.dfy`): chains of setter calls on one builder, run as a
  pure function `Run`. A chain's calls run left to right, and the first `null` argument
  throws: earlier assignments stay and later calls do not run. The lemmas cover:
  - last write wins;
  - stopping at the first `null`;
  - any order of setters on distinct segments gives the same state;
  - the four setters in any order build `["c", b, o, i, c]`.

Java `String` references are `Option<string>` (`JString`), so a name's segments are
`seq<JString>`. `build()` (ServiceInstanceCredentialName.java:142-145) does not check that
the four fields were set, so a name can hold `null` segments. `BuildCompleteIffAllSet`
states exactly when, and `BuilderChains.ChainSetsAll` states it for a chain of setters on a
fresh builder. `BuilderChains.ApplyChain` runs a chain of setter calls on one builder object
and is proved to agree with `Run`.

## Model

| member | source | states |
|---|---|---|
| `ServiceInstanceCredentialNames.Make` | spring-credhub-core/src/main/java/org/springframework/credhub/support/ServiceInstanceCredentialName.java:46-49 | the name has five segments: the discriminator `"c"` first, then broker, offering, binding id and credential name in that order, nulls kept as holes |
| `ServiceInstanceCredentialNames.MakeInjective` | spring-credhub-core/src/main/java/org/springframework/credhub/support/ServiceInstanceCredentialName.java:46-49 | two constructed names are equal exactly when their four arguments are equal, so names have value equality |
| `CredentialPath.Join` | spring-credhub-core/src/main/java/org/springframework/credhub/support/ServiceInstanceCredentialName.java:27-29 | the joined form is empty exactly for no segments, and otherwise starts with `/` |
| `CredentialPath.JoinInjective` | spring-credhub-core/src/main/java/org/springframework/credhub/support/ServiceInstanceCredentialName.java:27-29 | if no segment contains `/`, equal joined forms come from equal segment lists |
| `ServiceInstanceCredentialNames.FullNameForm` | spring-credhub-core/src/main/java/org/springframework/credhub/support/ServiceInstanceCredentialName.java:24-29 | a name made from four strings has no hole, and its full name is `"/c/" + broker + "/" + offering + "/" + bindingId + "/" + credential` |
| `ServiceInstanceCredentialNames.FullName` | spring-credhub-core/src/main/java/org/springframework/credhub/support/ServiceInstanceCredentialName.java:27-29 | the full name of a name without holes is empty exactly when it has no segments, and otherwise starts with `/`; `FullNameForm` gives its exact form |
| `ServiceInstanceCredentialNames.SlashCollision` | spring-credhub-core/src/main/java/org/springframework/credhub/support/ServiceInstanceCredentialName.java:24-29 | the setters accept `/`, so moving a `/` from the end of the broker name to the start of the offering name gives a different name with the same full name |
| `ServiceInstanceCredentialNames.FullNameIdentifies` | spring-credhub-core/src/main/java/org/springframework/credhub/support/ServiceInstanceCredentialName.java:24-29 | for names without holes whose segments contain no `/`, equal full names hold exactly for equal names |
| `ServiceInstanceCredentialNames.Unset` | spring-credhub-core/src/main/java/org/springframework/credhub/support/ServiceInstanceCredentialName.java:73-82 | a fresh builder holds null in all four fields |
| `ServiceInstanceCredentialNames.Set` | spring-credhub-core/src/main/java/org/springframework/credhub/support/ServiceInstanceCredentialName.java:92-135 | a successful setter gives its own segment the argument and leaves the other three unchanged |
| `ServiceInstanceCredentialNames.SetLastWriteWins` | spring-credhub-core/src/main/java/org/springframework/credhub/support/ServiceInstanceCredentialName.java:92-135 | setting one segment twice is the same as setting it once to the second value |
| `ServiceInstanceCredentialNames.SetCommutes` | spring-credhub-core/src/main/java/org/springframework/credhub/support/ServiceInstanceCredentialName.java:92-135 | setters of two different segments give the same state in either order |
| `ServiceInstanceCredentialNames.Apply` | spring-credhub-core/src/main/java/org/springframework/credhub/support/ServiceInstanceCredentialName.java:92-135 | one setter call succeeds exactly when its argument is non-null; a rejected call reports its segment and changes no field; a successful one makes the assignment `Set` describes |
| `ServiceInstanceCredentialNames.BuildFrom` | spring-credhub-core/src/main/java/org/springframework/credhub/support/ServiceInstanceCredentialName.java:142-145 | the built name has five segments: `"c"` first, then each field's value at that segment's fixed position |
| `ServiceInstanceCredentialNames.BuildCompleteIffAllSet` | spring-credhub-core/src/main/java/org/springframework/credhub/support/ServiceInstanceCredentialName.java:142-145 | build() checks nothing: the name has no null hole exactly when all four fields are set |
| `ServiceInstanceCredentialNames.ServiceInstanceCredentialNameBuilder.constructor` | spring-credhub-core/src/main/java/org/springframework/credhub/support/ServiceInstanceCredentialName.java:81-82 | a new builder's fields are all null |
| `ServiceInstanceCredentialNames.ServiceInstanceCredentialNameBuilder.ServiceBrokerName` | spring-credhub-core/src/main/java/org/springframework/credhub/support/ServiceInstanceCredentialName.java:92-96 | a null argument throws and changes nothing; otherwise only `serviceBrokerName` is assigned and the result is this same builder |
| `ServiceInstanceCredentialNames.ServiceInstanceCredentialNameBuilder.ServiceOfferingName` | spring-credhub-core/src/main/java/org/springframework/credhub/support/ServiceInstanceCredentialName.java:105-109 | a null argument throws and changes nothing; otherwise only `serviceOfferingName` is assigned and the result is this same builder |
| `ServiceInstanceCredentialNames.ServiceInstanceCredentialNameBuilder.ServiceBindingId` | spring-credhub-core/src/main/java/org/springframework/credhub/support/ServiceInstanceCredentialName.java:119-123 | a null argument throws and changes nothing; otherwise only `serviceBindingId` is assigned and the result is this same builder |
| `ServiceInstanceCredentialNames.ServiceInstanceCredentialNameBuilder.CredentialName` | spring-credhub-core/src/main/java/org/springframework/credhub/support/ServiceInstanceCredentialName.java:131-135 | a null argument throws and changes nothing; otherwise only `credentialName` is assigned and the result is this same builder |
| `ServiceInstanceCredentialNames.ServiceInstanceCredentialNameBuilder.Build` | spring-credhub-core/src/main/java/org/springframework/credhub/support/ServiceInstanceCredentialName.java:142-145 | build() yields the segments `"c"`, then the four fields in their fixed order, nulls kept as holes |
| `ServiceInstanceCredentialNames.Builder` | spring-credhub-core/src/main/java/org/springframework/credhub/support/ServiceInstanceCredentialName.java:57-59 | builder() returns a newly allocated builder with all four fields null |
| `ServiceInstanceCredentialNames.BuildChained` | spring-credhub-core/src/main/java/org/springframework/credhub/support/ServiceInstanceCredentialName.java:92-145 | chaining the four setters on the builder each one returns, then calling build(), yields `["c", b, o, i, c]` |
| `BuilderChains.Run` | spring-credhub-core/src/main/java/org/springframework/credhub/support/ServiceInstanceCredentialName.java:92-135 | a chain of setter calls ends without an exception exactly when no argument is null |
| `BuilderChains.RunReadsLastWrite` | spring-credhub-core/src/main/java/org/springframework/credhub/support/ServiceInstanceCredentialName.java:92-135 | after a chain without nulls, each segment holds the argument of the last call that named it, or its earlier value if no call did (last write wins) |
| `BuilderChains.RunStopsAtNull` | spring-credhub-core/src/main/java/org/springframework/credhub/support/ServiceInstanceCredentialName.java:92-135 | the first null argument throws for its segment; the builder keeps exactly what the calls before it assigned, and the rejected call and later calls change nothing |
| `BuilderChains.ChainSetsAll` | spring-credhub-core/src/main/java/org/springframework/credhub/support/ServiceInstanceCredentialName.java:73-82 | a chain without nulls on a fresh builder leaves all four fields set exactly when every segment is named by some call |
| `BuilderChains.RunSnoc` | spring-credhub-core/src/main/java/org/springframework/credhub/support/ServiceInstanceCredentialName.java:92-135 | extending a chain without nulls by one call applies that setter to the state the chain reached |
| `BuilderChains.ApplyChain` | spring-credhub-core/src/main/java/org/springframework/credhub/support/ServiceInstanceCredentialName.java:92-135 | calling the setters in order on one builder leaves it in the state `Run` gives, and the result is that same builder, or the exception of the first setter given null |
| `BuilderChains.OrderIndependent` | spring-credhub-core/src/main/java/org/springframework/credhub/support/ServiceInstanceCredentialName.java:72-135 | non-null setter calls on distinct segments give the same state in any permutation |
| `BuilderChains.FourSettersAnyOrder` | spring-credhub-core/src/main/java/org/springframework/credhub/support/ServiceInstanceCredentialName.java:72-145 | on a fresh builder, the four setters in any order succeed, and build() then gives `["c", b, o, i, c]` |
| `BuilderChains.DocumentedExample` | spring-credhub-core/src/main/java/org/springframework/credhub/support/ServiceInstanceCredentialName.java:24-29 | an instance of the documented form: setting broker1, mysql, abc-123 and password gives the full name `/c/broker1/mysql/abc-123/password` |

## Left out

- The base class `CredentialName` is not part of this model. Its real join, escaping and null handling are unknown, so the joined form follows the class documentation only.
- `ServiceInstanceCredentialNames.FullName`: only defined for names without null holes, because the base class's treatment of a null segment is unknown.
- `toString()` is left out: its output depends on the formatting of `java.util.Arrays.toString`, a library call.
- The setters' error: `org.springframework.util.Assert.notNull` throws `IllegalArgumentException` with a message text. The model keeps only which segment's setter threw (`IllegalArgument(segment)`), not the exception type or the message.
- Exceptions are modelled as returned values. Java unwinding through a chain is modelled by `BuilderChains.Run`, which stops at the first rejected call.
- Java strings are Dafny strings; UTF-16 encoding is not modelled.
- Request serialization and HTTP transport, which consume this name elsewhere, are left out.
