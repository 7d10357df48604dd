/**
 * Cluster-facing selection and ordering rules of the installer
 * (installer/pkg/kube/kube.go), over plain records and sequences in place
 * of the client-go objects.
 */
module Kube {
  import opened Wrappers

  // ------------------------------------------------------------------
  // Services and their load balancer
  // ------------------------------------------------------------------

  datatype ServiceSpec = ServiceSpec(serviceType: string)
  datatype LoadBalancerIngress = LoadBalancerIngress(ip: string, hostname: string)
  datatype LoadBalancerStatus = LoadBalancerStatus(ingress: seq<LoadBalancerIngress>)
  datatype ServiceStatus = ServiceStatus(loadBalancer: LoadBalancerStatus)
  /** The parts of `core.Service` the installer reads. A nil ingress list is the empty sequence. */
  datatype Service = Service(spec: ServiceSpec, status: ServiceStatus)

  const LoadBalancerType: string := "LoadBalancer"
  const HttpsScheme: string := "https://"
  const InvalidIngress: string := "Invalid Ingress"
  const UnresolvedIngress: string := "Can't resolve Ingress Hostname or IP"

  /** `IsLoadBalancer`: an exact, case-sensitive match on the service type. */
  predicate IsLoadBalancer(svc: Service)
  {
    svc.spec.serviceType == LoadBalancerType
  }

  /** The ingress list of a service. */
  function Ingress(svc: Service): seq<LoadBalancerIngress>
  {
    svc.status.loadBalancer.ingress
  }

  /**
   * `GetLoadBalancerHost`: the first ingress entry's host name, or failing
   * that its IP, behind "https://"; one error for a missing ingress list
   * and another when the first entry names neither.
   */
  function GetLoadBalancerHost(svc: Service): (r: Result<string, string>)
    ensures r == Failure(InvalidIngress) <==> Ingress(svc) == []
    ensures r == Failure(UnresolvedIngress)
        <==> Ingress(svc) != [] && Ingress(svc)[0].hostname == "" && Ingress(svc)[0].ip == ""
    ensures r.Failure? ==> r.error == InvalidIngress || r.error == UnresolvedIngress
    ensures r.Success? ==> |r.value| >= |HttpsScheme| && r.value[..|HttpsScheme|] == HttpsScheme
    ensures r.Success? && Ingress(svc)[0].hostname != "" ==> r.value[|HttpsScheme|..] == Ingress(svc)[0].hostname
    ensures r.Success? && Ingress(svc)[0].hostname == "" ==> r.value[|HttpsScheme|..] == Ingress(svc)[0].ip
  {
    var ingress := Ingress(svc);
    if |ingress| == 0 then Failure(InvalidIngress)
    else if ingress[0].hostname != "" then Success(HttpsScheme + ingress[0].hostname)
    else if ingress[0].ip != "" then Success(HttpsScheme + ingress[0].ip)
    else Failure(UnresolvedIngress)
  }

  /** Only the first ingress entry is consulted. */
  lemma OnlyFirstIngressConsulted(s1: Service, s2: Service)
    requires Ingress(s1) != [] && Ingress(s2) != [] && Ingress(s1)[0] == Ingress(s2)[0]
    ensures GetLoadBalancerHost(s1) == GetLoadBalancerHost(s2)
  {
  }

  /** The service type is not consulted: only the ingress list matters. */
  lemma HostIgnoresServiceType(svc: Service, serviceType: string)
    ensures GetLoadBalancerHost(svc.(spec := ServiceSpec(serviceType))) == GetLoadBalancerHost(svc)
  {
  }

  /** A successful result gives back the address it was built from. */
  lemma {:induction false} HostRoundTrip(svc: Service, host: string)
    requires host != ""
    requires Ingress(svc) != []
    requires Ingress(svc)[0].hostname == host || (Ingress(svc)[0].hostname == "" && Ingress(svc)[0].ip == host)
    ensures GetLoadBalancerHost(svc) == Success(HttpsScheme + host)
  {
  }

  // ------------------------------------------------------------------
  // Namespaces: "default" first
  // ------------------------------------------------------------------

  const DefaultNamespace: string := "default"

  datatype Namespace = Namespace(name: string)

  function Names(items: seq<Namespace>): seq<string>
  {
    seq(|items|, i requires 0 <= i < |items| => items[i].name)
  }

  /**
   * The order `GetNamespaces` builds: each "default" is put in front of
   * what was built so far, every other name is put at the back.
   */
  function DefaultsFirst(names: seq<string>): seq<string>
  {
    if names == [] then []
    else
      var last := names[|names| - 1];
      var rest := DefaultsFirst(names[..|names| - 1]);
      if last == DefaultNamespace then [DefaultNamespace] + rest else rest + [last]
  }

  /** The names other than "default", in order. */
  function NonDefault(names: seq<string>): seq<string>
  {
    if names == [] then []
    else (if names[0] == DefaultNamespace then [] else [names[0]]) + NonDefault(names[1..])
  }

  lemma {:induction false} NonDefaultAppend(a: seq<string>, b: seq<string>)
    ensures NonDefault(a + b) == NonDefault(a) + NonDefault(b)
  {
    if a == [] {
      assert a + b == b;
    } else {
      var ab := a + b;
      assert ab[0] == a[0];
      assert ab[1..] == a[1..] + b;
      NonDefaultAppend(a[1..], b);
      calc {
        NonDefault(ab);
        (if a[0] == DefaultNamespace then [] else [a[0]]) + NonDefault(a[1..] + b);
        (if a[0] == DefaultNamespace then [] else [a[0]]) + (NonDefault(a[1..]) + NonDefault(b));
      }
    }
  }

  /** The result is a permutation of the input. */
  lemma {:induction false} DefaultsFirstPermutation(names: seq<string>)
    ensures multiset(DefaultsFirst(names)) == multiset(names)
  {
    if names != [] {
      var init := names[..|names| - 1];
      DefaultsFirstPermutation(init);
      assert names == init + [names[|names| - 1]];
    }
  }

  /** Every "default" precedes every other name. */
  lemma {:induction false} DefaultsFirstDefaultsLead(names: seq<string>)
    ensures var r := DefaultsFirst(names);
      forall i, j :: 0 <= i < j < |r| && r[j] == DefaultNamespace ==> r[i] == DefaultNamespace
  {
    if names != [] {
      var init := names[..|names| - 1];
      DefaultsFirstDefaultsLead(init);
      DefaultsFirstPermutation(init);
      var rest := DefaultsFirst(init);
      assert |rest| == |init| by {
        assert |multiset(rest)| == |multiset(init)|;
      }
      var r := DefaultsFirst(names);
      if names[|names| - 1] == DefaultNamespace {
        forall i, j | 0 <= i < j < |r| && r[j] == DefaultNamespace
          ensures r[i] == DefaultNamespace
        {
          if i > 0 {
            assert r[i] == rest[i - 1] && r[j] == rest[j - 1];
          }
        }
      }
    }
  }

  /** The names other than "default" keep their input order. */
  lemma {:induction false} DefaultsFirstKeepsOrder(names: seq<string>)
    ensures NonDefault(DefaultsFirst(names)) == NonDefault(names)
  {
    if names != [] {
      var init := names[..|names| - 1];
      var last := names[|names| - 1];
      DefaultsFirstKeepsOrder(init);
      var rest := DefaultsFirst(init);
      assert names == init + [last];
      NonDefaultAppend(init, [last]);
      if last == DefaultNamespace {
        NonDefaultAppend([DefaultNamespace], rest);
      } else {
        NonDefaultAppend(rest, [last]);
      }
    }
  }

  /**
   * `GetNamespaces`: a failed listing is passed on; otherwise the names
   * in the order `DefaultsFirst` gives.
   */
  method GetNamespaces(listing: Result<seq<Namespace>, string>) returns (r: Result<seq<string>, string>)
    ensures listing.Failure? ==> r == Failure(listing.error)
    ensures listing.Success? ==> r == Success(DefaultsFirst(Names(listing.value)))
  {
    if listing.Failure? {
      return Failure(listing.error);
    }
    var items := listing.value;
    ghost var names := Names(items);
    var result: seq<string> := [];
    for i := 0 to |items|
      invariant result == DefaultsFirst(names[..i])
    {
      assert names[..i + 1][..i] == names[..i];
      if items[i].name == DefaultNamespace {
        result := [DefaultNamespace] + result;
        continue;
      }
      result := result + [items[i].name];
    }
    assert names[..|items|] == names;
    return Success(result);
  }

  // ------------------------------------------------------------------
  // Contexts: the current one first
  // ------------------------------------------------------------------

  datatype ContextInfo = ContextInfo(cluster: string, authInfo: string, namespace: string)

  /** The parts of a raw kubeconfig that `GetAllContexts` reads. */
  datatype RawConfig = RawConfig(currentContext: string, contexts: map<string, ContextInfo>)

  /** The context names as `GetAllContexts` promises them. */
  predicate ContextsListed(config: RawConfig, result: seq<string>)
  {
    var cur := config.currentContext;
    && (cur != "" ==> |result| > 0 && result[0] == cur)
    && (forall i :: 0 <= i < |result| && result[i] == cur ==> i == 0 && cur != "")
    && (forall k :: k in config.contexts && k != cur ==> k in result)
    && (forall x :: x in result ==> x == cur || x in config.contexts)
    && (forall i, j :: 0 <= i < j < |result| ==> result[i] != result[j])
  }

  /**
   * `GetAllContexts`: a failed load is passed on; otherwise a non-empty
   * current context comes first and every other context name follows
   * once, in the map's iteration order, which is chosen here arbitrarily.
   */
  method GetAllContexts(loaded: Result<RawConfig, string>) returns (r: Result<seq<string>, string>)
    ensures loaded.Failure? ==> r == Failure(loaded.error)
    ensures loaded.Success? ==> r.Success? && ContextsListed(loaded.value, r.value)
  {
    if loaded.Failure? {
      return Failure(loaded.error);
    }
    var config := loaded.value;
    var cur := config.currentContext;
    var result: seq<string> := [];
    if cur != "" {
      result := result + [cur];
    }
    var remaining := config.contexts.Keys;
    while remaining != {}
      invariant remaining <= config.contexts.Keys
      invariant cur != "" ==> |result| > 0 && result[0] == cur
      invariant forall i :: 0 <= i < |result| && result[i] == cur ==> i == 0 && cur != ""
      invariant forall x :: x in result <==>
        (x == cur && cur != "") || (x in config.contexts && x !in remaining && x != cur)
      invariant forall i, j :: 0 <= i < j < |result| ==> result[i] != result[j]
      decreases remaining
    {
      var k :| k in remaining;
      remaining := remaining - {k};
      if k == cur {
        continue;
      }
      result := result + [k];
    }
    return Success(result);
  }
}
