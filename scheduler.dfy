/**
 * The periodic environment-discovery pass of the agent
 * (agent/pkg/scheduler/env_initializer.go). Each pass reads the remote
 * listing, keeps the entries of type "argo", replaces the stored
 * known-environment list with their names, and hands the application of
 * every entry that was not known before to the initialisation step.
 */
module Scheduler {
  import opened Wrappers
  import opened Codefresh

  /** The environment type this agent manages. */
  const ArgoType: string := "argo"

  /** A known-environment record of the store (`store.Environment`). */
  datatype KnownEnvironment = KnownEnvironment(name: string)

  /**
   * The process-wide store of known environments. Only the list of known
   * environments is modelled.
   */
  class Store {
    var environments: seq<KnownEnvironment>

    /** `store.SetEnvironments`: replaces the list wholesale. */
    method SetEnvironments(envs: seq<KnownEnvironment>)
      modifies this
      ensures environments == envs
    {
      environments := envs;
    }
  }

  predicate IsArgo(e: CFEnvironment)
  {
    e.spec.envType == ArgoType
  }

  /** `isNewEnv`: no known environment carries the entry's name. */
  function IsNewEnv(existing: seq<KnownEnvironment>, newEnv: CFEnvironment): (r: bool)
    ensures r <==> forall i :: 0 <= i < |existing| ==> existing[i].name != newEnv.metadata.name
    ensures existing == [] ==> r
  {
    if existing == [] then true
    else if existing[0].name == newEnv.metadata.name then false
    else IsNewEnv(existing[1..], newEnv)
  }

  /** The known-environment list a pass computes from a listing. */
  function KnownFromListing(envs: seq<CFEnvironment>): seq<KnownEnvironment>
  {
    if envs == [] then []
    else
      var e := envs[|envs| - 1];
      var rest := KnownFromListing(envs[..|envs| - 1]);
      if IsArgo(e) then rest + [KnownEnvironment(e.metadata.name)] else rest
  }

  /** The applications a pass discovers, given the list known before it. */
  function DiscoveredApplications(previous: seq<KnownEnvironment>, envs: seq<CFEnvironment>): seq<string>
  {
    if envs == [] then []
    else
      var e := envs[|envs| - 1];
      var rest := DiscoveredApplications(previous, envs[..|envs| - 1]);
      if IsArgo(e) && IsNewEnv(previous, e) then rest + [e.spec.application] else rest
  }

  // ------------------------------------------------------------------
  // What one pass computes
  // ------------------------------------------------------------------

  /** The new known list holds exactly the names of the argo entries. */
  lemma {:induction false} KnownFromListingMembers(envs: seq<CFEnvironment>, n: string)
    ensures KnownEnvironment(n) in KnownFromListing(envs)
        <==> exists i :: 0 <= i < |envs| && IsArgo(envs[i]) && envs[i].metadata.name == n
  {
    if envs != [] {
      var init := envs[..|envs| - 1];
      KnownFromListingMembers(init, n);
      if exists i :: 0 <= i < |init| && IsArgo(init[i]) && init[i].metadata.name == n {
        var i :| 0 <= i < |init| && IsArgo(init[i]) && init[i].metadata.name == n;
        assert envs[i] == init[i];
      }
      if exists i :: 0 <= i < |envs| && IsArgo(envs[i]) && envs[i].metadata.name == n {
        var i :| 0 <= i < |envs| && IsArgo(envs[i]) && envs[i].metadata.name == n;
        if i < |init| {
          assert init[i] == envs[i];
        }
      }
    }
  }

  /** Listing order is kept: the pass works entry by entry. */
  lemma {:induction false} KnownFromListingAppend(a: seq<CFEnvironment>, b: seq<CFEnvironment>)
    ensures KnownFromListing(a + b) == KnownFromListing(a) + KnownFromListing(b)
    decreases |b|
  {
    if b == [] {
      assert a + b == a;
    } else {
      var init := b[..|b| - 1];
      KnownFromListingAppend(a, init);
      assert (a + b)[..|a + b| - 1] == a + init;
      assert (a + b)[|a + b| - 1] == b[|b| - 1];
    }
  }

  /** Entries of another type contribute neither a known name nor an application. */
  lemma NonArgoIgnored(envs: seq<CFEnvironment>, e: CFEnvironment, previous: seq<KnownEnvironment>)
    requires !IsArgo(e)
    ensures KnownFromListing(envs + [e]) == KnownFromListing(envs)
    ensures DiscoveredApplications(previous, envs + [e]) == DiscoveredApplications(previous, envs)
  {
  }

  /**
   * An application is discovered iff some argo entry naming it carries a
   * name absent from the list known before the pass.
   */
  lemma {:induction false} DiscoveredApplicationsMembers(previous: seq<KnownEnvironment>, envs: seq<CFEnvironment>, app: string)
    ensures app in DiscoveredApplications(previous, envs)
        <==> exists i :: 0 <= i < |envs| && IsArgo(envs[i]) && IsNewEnv(previous, envs[i])
                         && envs[i].spec.application == app
  {
    if envs != [] {
      var init := envs[..|envs| - 1];
      DiscoveredApplicationsMembers(previous, init, app);
      if exists i :: 0 <= i < |init| && IsArgo(init[i]) && IsNewEnv(previous, init[i]) && init[i].spec.application == app {
        var i :| 0 <= i < |init| && IsArgo(init[i]) && IsNewEnv(previous, init[i]) && init[i].spec.application == app;
        assert envs[i] == init[i];
      }
      if exists i :: 0 <= i < |envs| && IsArgo(envs[i]) && IsNewEnv(previous, envs[i]) && envs[i].spec.application == app {
        var i :| 0 <= i < |envs| && IsArgo(envs[i]) && IsNewEnv(previous, envs[i]) && envs[i].spec.application == app;
        if i < |init| {
          assert init[i] == envs[i];
        }
      }
    }
  }

  /** Discovery keeps listing order. */
  lemma {:induction false} DiscoveredApplicationsAppend(previous: seq<KnownEnvironment>, a: seq<CFEnvironment>, b: seq<CFEnvironment>)
    ensures DiscoveredApplications(previous, a + b)
         == DiscoveredApplications(previous, a) + DiscoveredApplications(previous, b)
    decreases |b|
  {
    if b == [] {
      assert a + b == a;
    } else {
      var init := b[..|b| - 1];
      DiscoveredApplicationsAppend(previous, a, init);
      assert (a + b)[..|a + b| - 1] == a + init;
      assert (a + b)[|a + b| - 1] == b[|b| - 1];
    }
  }

  /** When every argo name is already known, a pass discovers nothing. */
  lemma {:induction false} NothingNewWhenAllKnown(previous: seq<KnownEnvironment>, envs: seq<CFEnvironment>)
    requires forall i :: 0 <= i < |envs| && IsArgo(envs[i]) ==> KnownEnvironment(envs[i].metadata.name) in previous
    ensures DiscoveredApplications(previous, envs) == []
  {
    if envs != [] {
      var init := envs[..|envs| - 1];
      forall i | 0 <= i < |init| && IsArgo(init[i])
        ensures KnownEnvironment(init[i].metadata.name) in previous
      {
        assert init[i] == envs[i];
      }
      NothingNewWhenAllKnown(previous, init);
      var e := envs[|envs| - 1];
      if IsArgo(e) {
        var k :| 0 <= k < |previous| && previous[k] == KnownEnvironment(e.metadata.name);
        assert !IsNewEnv(previous, e);
      }
    }
  }

  /** Running a pass twice on the same listing discovers nothing the second time. */
  lemma SecondPassDiscoversNothing(envs: seq<CFEnvironment>)
    ensures DiscoveredApplications(KnownFromListing(envs), envs) == []
  {
    forall i | 0 <= i < |envs| && IsArgo(envs[i])
      ensures KnownEnvironment(envs[i].metadata.name) in KnownFromListing(envs)
    {
      KnownFromListingMembers(envs, envs[i].metadata.name);
    }
    NothingNewWhenAllKnown(KnownFromListing(envs), envs);
  }

  // ------------------------------------------------------------------
  // Initialising the discovered applications
  // ------------------------------------------------------------------

  /**
   * What happened to one discovered application: its extraction failed
   * (it is skipped), or its environment was sent, with or without error.
   * There is one outcome per application; a failed send is also logged.
   */
  datatype AppOutcome =
    | ExtractFailed(application: string, reason: string)
    | Sent(application: string, env: Environment)
    | SendFailed(application: string, env: Environment, reason: string)

  /**
   * One attempt, with `ExtractNewApplication` and `SendEnvironment` given
   * as possibly failing operations.
   */
  function Attempt(application: string,
                   extract: string -> Result<Environment, string>,
                   send: Environment -> Option<string>): AppOutcome
  {
    match extract(application)
    case Failure(err) => ExtractFailed(application, err)
    case Success(env) =>
      match send(env)
      case Some(err) => SendFailed(application, env, err)
      case None => Sent(application, env)
  }

  /** The environments handed to `SendEnvironment`, in order. */
  function SendCalls(log: seq<AppOutcome>): seq<Environment>
  {
    if log == [] then []
    else
      var rest := SendCalls(log[..|log| - 1]);
      match log[|log| - 1]
      case ExtractFailed(_, _) => rest
      case Sent(_, env) => rest + [env]
      case SendFailed(_, env, _) => rest + [env]
  }

  /**
   * `handleNewApplications`: every application is attempted, in order;
   * a failure on one changes nothing for the others.
   */
  method HandleNewApplications(applications: seq<string>,
                               extract: string -> Result<Environment, string>,
                               send: Environment -> Option<string>)
    returns (log: seq<AppOutcome>)
    ensures |log| == |applications|
    ensures forall i :: 0 <= i < |applications| ==> log[i] == Attempt(applications[i], extract, send)
  {
    log := [];
    for i := 0 to |applications|
      invariant |log| == i
      invariant forall j :: 0 <= j < i ==> log[j] == Attempt(applications[j], extract, send)
    {
      var application := applications[i];
      var extracted := extract(application);
      if extracted.Failure? {
        log := log + [ExtractFailed(application, extracted.error)];
        continue;
      }
      var newApp := extracted.value;
      var sendError := send(newApp);
      if sendError.Some? {
        log := log + [SendFailed(application, newApp, sendError.value)];
      } else {
        log := log + [Sent(application, newApp)];
      }
    }
  }

  /**
   * An environment is sent iff some application's extraction produced
   * it: a failed send never prevents a later one.
   */
  lemma {:induction false} SendCallsMembers(applications: seq<string>, log: seq<AppOutcome>,
                                            extract: string -> Result<Environment, string>,
                                            send: Environment -> Option<string>, env: Environment)
    requires |log| == |applications|
    requires forall i :: 0 <= i < |applications| ==> log[i] == Attempt(applications[i], extract, send)
    ensures env in SendCalls(log) <==> exists i :: 0 <= i < |applications| && extract(applications[i]) == Success(env)
  {
    if log != [] {
      var n := |log| - 1;
      SendCallsMembers(applications[..n], log[..n], extract, send, env);
      if exists i :: 0 <= i < n && extract(applications[..n][i]) == Success(env) {
        var i :| 0 <= i < n && extract(applications[..n][i]) == Success(env);
        assert applications[i] == applications[..n][i];
      }
      if exists i :: 0 <= i < |applications| && extract(applications[i]) == Success(env) {
        var i :| 0 <= i < |applications| && extract(applications[i]) == Success(env);
        if i < n {
          assert applications[..n][i] == applications[i];
        }
      }
    }
  }

  // ------------------------------------------------------------------
  // The whole pass
  // ------------------------------------------------------------------

  /**
   * `handleEnvDifference`: one pass over the listing and the fetch error
   * returned with it. The error is ignored: the store is replaced on
   * every pass, whatever the fetch reported.
   */
  method HandleEnvDifference(store: Store, listing: seq<CFEnvironment>, fetchError: Option<string>,
                             extract: string -> Result<Environment, string>,
                             send: Environment -> Option<string>)
    returns (applications: seq<string>, log: seq<AppOutcome>)
    modifies store
    ensures store.environments == KnownFromListing(listing)
    ensures applications == DiscoveredApplications(old(store.environments), listing)
    ensures |log| == |applications|
    ensures forall i :: 0 <= i < |applications| ==> log[i] == Attempt(applications[i], extract, send)
  {
    var previous := store.environments;
    var newEnvs: seq<KnownEnvironment> := [];
    applications := [];
    for i := 0 to |listing|
      invariant newEnvs == KnownFromListing(listing[..i])
      invariant applications == DiscoveredApplications(previous, listing[..i])
    {
      var env := listing[i];
      assert listing[..i + 1][..i] == listing[..i];
      if env.spec.envType != ArgoType {
        continue;
      }
      newEnvs := newEnvs + [KnownEnvironment(env.metadata.name)];
      if IsNewEnv(previous, env) {
        applications := applications + [env.spec.application];
      }
    }
    assert listing[..|listing|] == listing;
    store.SetEnvironments(newEnvs);
    log := HandleNewApplications(applications, extract, send);
  }

  // ------------------------------------------------------------------
  // Scenarios over consecutive passes
  // ------------------------------------------------------------------

  function ArgoEntry(name: string): CFEnvironment
  {
    CFEnvironment(CFMetadata(name), CFSpec(ArgoType, name + "-app"))
  }

  /** Known {A, B} and listing {A, B, C}: only C's application is discovered. */
  lemma OnlyNewEntryDiscovered()
    ensures DiscoveredApplications([KnownEnvironment("A"), KnownEnvironment("B")],
                                   [ArgoEntry("A"), ArgoEntry("B"), ArgoEntry("C")]) == ["C-app"]
  {
    var prev := [KnownEnvironment("A"), KnownEnvironment("B")];
    var envs := [ArgoEntry("A"), ArgoEntry("B"), ArgoEntry("C")];
    assert !IsNewEnv(prev, ArgoEntry("A"));
    assert !IsNewEnv(prev, ArgoEntry("B"));
    assert envs[..2][..1] == [ArgoEntry("A")];
    assert envs[..2] == [ArgoEntry("A"), ArgoEntry("B")];
    assert [ArgoEntry("A")][..0] == [];
    assert ("C" + "-app") == "C-app";
  }

  /**
   * A listing that goes {A}, {}, {A} over three passes starting from an
   * empty store discovers A on the first pass and again on the third:
   * only the list stored by the pass just before counts.
   */
  lemma FlickerRediscovers()
    ensures var known1 := KnownFromListing([ArgoEntry("A")]);
            var known2 := KnownFromListing([]);
            && DiscoveredApplications([], [ArgoEntry("A")]) == ["A-app"]
            && DiscoveredApplications(known1, []) == []
            && known2 == []
            && DiscoveredApplications(known2, [ArgoEntry("A")]) == ["A-app"]
  {
    assert [ArgoEntry("A")][..0] == [];
    assert "A" + "-app" == "A-app";
  }
}
