# argocd-agent core logic in Dafny

This project models five small pieces of the Codefresh Argo CD agent and its installer. It proves each piece's behaviour as contracts and lemmas:

- **Environment discovery** (`Scheduler`, `scheduler.dfy`). This is the periodic pass of the agent. It lists the remote `CFEnvironment`s and keeps those of type `"argo"`. It replaces the stored known-environment list with their names, and tries to initialise the application of every entry whose name the store did not hold before the pass.
- **Environment equality** (`Comparator`, `comparator.dfy`). `Compare` is a specification of `EnvComparator.Compare`, chosen to agree with the four cases its tests fix. The scalar fields that identify a logical state must be equal, and the activity lists must hold the same activities regardless of order. Two activities count as the same when they agree on name, status, the set of target images and the set of live images; replica counts play no part.
- **Domain records and error text** (`Codefresh`, `codefresh.dfy`). These are `Environment`, `EnvironmentActivity`, `ReplicaState`, `EnvironmentActivityRS`, `CFEnvironment` and `CodefreshError`, plus the text `CodefreshError.Error()` produces. Go's `int64` is the bounded `Int64` newtype; `CodefreshError.Status`, a Go `int`, is taken as 64-bit and uses the same type.
- **String utilities** (`Util`, `util.dfy`). `Contains` is a linear search. `IsBase64` recognises padded standard base64 over the alphabet of section 4 of RFC 4648. The model gives the pattern's language as a group-by-group predicate and as an equivalent closed form, and decides it with a checking loop.
- **Installer rules** (`Kube`, `kube.dfy`). These are `IsLoadBalancer`, which is the single type comparison of installer/pkg/kube/kube.go:58 written as a predicate with no separate contract, `GetLoadBalancerHost`, the reordering loop of `GetNamespaces` (every `"default"` goes to the front) and the loop of `GetAllContexts` (the current context first, every other context once).

`Wrappers` (`wrappers.dfy`) holds the `Option` and `Result` types the other modules share.

The remote calls are inputs of the model:
- `GetEnvironments` is the pass's `listing` and `fetchError` parameters.
- `ExtractNewApplication` and `SendEnvironment` are function parameters that may fail.
- The client-go `List` call and the kubeconfig load are `Result` parameters.

Logging is modelled as the returned list of per-application outcomes. Go's map iteration order in `GetAllContexts` is modelled as an arbitrary choice of the next key.

A failed remote listing does not keep the previous known set. `handleEnvDifference` discards the listing error (`envs, _ :=`, agent/pkg/scheduler/env_initializer.go:42) and replaces the store on every pass (line 58). `HandleEnvDifference` takes the error and ignores it, and its contract ties the new store to the listing alone.

## Model

| member | source | states |
|---|---|---|
| Codefresh.Error | agent/pkg/codefresh/types.go:80-82 | the text is "Request failed to ", the URL, ", ", the code, " - " and the message, each at a fixed offset; its length is the sum of theirs |
| Codefresh.ErrorIgnoresStatusNameContext | agent/pkg/codefresh/types.go:66-82 | errors that agree on URL, code and message have the same text, whatever their status, name and context |
| Codefresh.ErrorDeterminesFields | agent/pkg/codefresh/types.go:80-82 | given the lengths of URL and code, equal texts come from equal URL, code and message |
| Comparator.CompareReflexive | agent/pkg/util/comparator/comparator_test.go:9-43 | every environment compares equal to itself |
| Comparator.SameEnvTest | agent/pkg/util/comparator/comparator_test.go:9-43 | the first test's two identical environments with no activities compare equal |
| Comparator.SwappedActivitiesEqual | agent/pkg/util/comparator/comparator_test.go:45-103 | exchanging any two activities of an environment leaves it equal to the original |
| Comparator.ReorderedActivitiesEqual | agent/pkg/util/comparator/comparator_test.go:45-103 | any reordering of the activity list leaves the environment equal to the original |
| Comparator.SameEnvAndActivitiesTest | agent/pkg/util/comparator/comparator_test.go:45-103 | the second test's environments, activities [act1, act2] against [act2, act1], compare equal |
| Comparator.DifferentSizeUnequal | agent/pkg/util/comparator/comparator_test.go:105-162 | activity lists of different lengths make environments unequal |
| Comparator.ChangedActivityUnequal | agent/pkg/codefresh/types.go:48-54 | under the model's key rule, replacing one activity by one with another name, status, target-image set or live-image set makes the environment unequal to the original |
| Comparator.ActivityDetailsIgnored | agent/pkg/codefresh/types.go:48-64 | under the model's key rule, replacing one activity by one with the same name, status and image sets (other replica counts, images reordered or repeated) keeps the environment equal to the original |
| Comparator.SameEnvAndDifferentActivitiesTest | agent/pkg/util/comparator/comparator_test.go:105-162 | the third test's environments, activities [test/test, test/test4] against [test/test], compare unequal |
| Comparator.DifferentHistoryIdUnequal | agent/pkg/util/comparator/comparator_test.go:164-198 | a different history id makes environments unequal |
| Comparator.DiffEnvTest | agent/pkg/util/comparator/comparator_test.go:164-198 | the fourth test's environments, history ids 123 and 12, compare unequal |
| Util.Contains | agent/pkg/util/util.go:13-20 | true iff some index holds the element; false on an empty list |
| Util.MatchesBase64IffPadded | agent/pkg/util/util.go:6 | the pattern read group by group accepts exactly the texts of length a multiple of four, at least four, with alphabet characters before a valid final group |
| Util.IsBase64 | agent/pkg/util/util.go:22-24 | the check returns true iff the whole text matches the anchored pattern |
| Util.AcceptedLength | agent/pkg/util/util.go:6 | accepted text is a positive multiple of four long, so the empty text is rejected |
| Util.AcceptedCharacters | agent/pkg/util/util.go:6 | every accepted character is in A-Z a-z 0-9 + / or is '=' |
| Util.PaddingOnlyAtEnd | agent/pkg/util/util.go:6 | a '=' is one of the last two characters, and one second to last is followed by another, so at most two occur |
| Util.UnpaddedAccepted | agent/pkg/util/util.go:6 | any non-empty concatenation of four-character groups over the alphabet is accepted |
| Util.PrefixGroupAccepted | agent/pkg/util/util.go:6 | a full group followed by accepted text is accepted |
| Util.Base64Examples | agent/pkg/util/util.go:6 | "TWFu" and "TQ==" are accepted; "TQ=" and "" are not |
| Scheduler.Store.SetEnvironments | agent/pkg/scheduler/env_initializer.go:58 | the stored list becomes exactly the given one, not merged with the old one |
| Scheduler.IsNewEnv | agent/pkg/scheduler/env_initializer.go:13-21 | true iff no known environment has the entry's name; true on an empty list |
| Scheduler.KnownFromListingMembers | agent/pkg/scheduler/env_initializer.go:43-51 | a name is in the new known list iff some argo-typed entry of the listing carries it |
| Scheduler.KnownFromListingAppend | agent/pkg/scheduler/env_initializer.go:43-51 | the known list of a concatenated listing is the concatenation of the known lists, so listing order is kept |
| Scheduler.NonArgoIgnored | agent/pkg/scheduler/env_initializer.go:44-46 | an entry of another type adds neither a known name nor an application |
| Scheduler.DiscoveredApplicationsMembers | agent/pkg/scheduler/env_initializer.go:53-55 | an application is discovered iff an argo-typed entry carries it and its name is absent from the list stored before the pass |
| Scheduler.DiscoveredApplicationsAppend | agent/pkg/scheduler/env_initializer.go:53-55 | discovery over a concatenated listing is the concatenation of the discoveries, so listing order is kept |
| Scheduler.NothingNewWhenAllKnown | agent/pkg/scheduler/env_initializer.go:53-55 | when every argo name is already stored, nothing is discovered |
| Scheduler.SecondPassDiscoversNothing | agent/pkg/scheduler/env_initializer.go:48-58 | a second pass over the same listing discovers nothing |
| Scheduler.HandleNewApplications | agent/pkg/scheduler/env_initializer.go:23-36 | every application is attempted in order, one outcome each; a failed extraction skips only that one, and a failed send is only recorded |
| Scheduler.SendCallsMembers | agent/pkg/scheduler/env_initializer.go:24-35 | an environment is sent iff the extraction of some application produced it |
| Scheduler.HandleEnvDifference | agent/pkg/scheduler/env_initializer.go:38-62 | the store becomes the known list of the listing, whatever the fetch error; the discovered applications are computed against the store read before it is replaced; each of them is then attempted |
| Scheduler.OnlyNewEntryDiscovered | agent/pkg/scheduler/env_initializer.go:43-56 | with {A, B} stored and listing {A, B, C}, only C's application is discovered |
| Scheduler.FlickerRediscovers | agent/pkg/scheduler/env_initializer.go:38-58 | over listings {A}, {}, {A}, A is discovered on the first and again on the third pass |
| Kube.GetLoadBalancerHost | installer/pkg/kube/kube.go:61-75 | "Invalid Ingress" iff the ingress list is empty; "Can't resolve Ingress Hostname or IP" iff the first entry has neither host name nor IP; otherwise "https://" then the host name if non-empty, else the IP |
| Kube.OnlyFirstIngressConsulted | installer/pkg/kube/kube.go:66 | services whose first ingress entries agree get the same result |
| Kube.HostIgnoresServiceType | installer/pkg/kube/kube.go:61-75 | the result does not depend on the service type |
| Kube.HostRoundTrip | installer/pkg/kube/kube.go:66-71 | a first entry with host name h, or with no host name and IP h, gives exactly "https://" + h |
| Kube.DefaultsFirstPermutation | installer/pkg/kube/kube.go:124-130 | the reordered names are a permutation of the input |
| Kube.DefaultsFirstDefaultsLead | installer/pkg/kube/kube.go:124-130 | every "default" precedes every other name |
| Kube.DefaultsFirstKeepsOrder | installer/pkg/kube/kube.go:124-130 | the names other than "default" keep their input order |
| Kube.GetNamespaces | installer/pkg/kube/kube.go:115-133 | a failed listing is passed on; otherwise the result is the names in the default-first order |
| Kube.GetAllContexts | installer/pkg/kube/kube.go:139-164 | a failed load is passed on; otherwise a non-empty current context is first and is never repeated, every other context name appears exactly once, and nothing else appears |

## Left out

- `Compare`'s implementation is not part of this model. The predicate compares name, health status, sync status, history id, revision, repository URL and finished-at, plus the multiset of activity keys (name, status, target-image set, live-image set). The tests vary only the history id and the activity lists: every fixture shares name, health status, sync status, revision, repository URL and finished-at, so comparing those six fields is the model's choice too, as is ignoring commit, sync policy and date. The tests also decide nothing about activities that differ only in images or replica counts. For those activity cases the model adopts the key rule above (`ChangedActivityUnequal`, `ActivityDetailsIgnored`); the real comparator may decide them differently.
- `Environment.Gitops` (the `git` package) and the untyped `Resources` field are left out. The untyped `CodefreshError.Context` is carried as a string.
- The store package is not part of this model. The `Store` class holds only its environment list.
- `StartEnvInitializer` is left out: the gocron schedule every five seconds (`EnvInitializer`) and the goroutine that runs it.
- `GetEnvironments`, `ExtractNewApplication` and `SendEnvironment` are remote calls. They are inputs of the model, and their results and failures are arbitrary per argument. `extract` and `send` are pure functions, so an application listed twice gets the same outcome both times, where the source makes two separate remote calls that may differ. Log output is the returned outcome list.
- The value `SendEnvironment` returns beside its error is discarded by the source, and by the model.
- `New`, `buildClient`, `GetClientSet` and `GetArgoServerSvc` are left out, along with the client-go `List` calls and kubeconfig loading. These are cluster and file I/O.
- The outer `Kube` interface and its receiver are left out. `GetLoadBalancerHost` and `GetNamespaces` do not use receiver state beyond the client.
- `IsBase64` specifies the language of the pattern directly, not Go's regexp engine. Go strings are byte strings; the model works on characters, and since every character the pattern accepts is ASCII, the accepted language is the same.
- The watch-event pipeline (agent/pkg/extract/crd_watcher.go), its deduplicating queue (`queue.ItemQueue` of agent/pkg/queue) and the snapshot transformer (agent/pkg/transform) are left out. This model covers none of those packages.
