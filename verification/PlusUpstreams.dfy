/** Upstreams of a VirtualServer for NGINX Plus: the list that is sent to a running NGINX against the list in the
    generated configuration. */
module PlusUpstreams {

  datatype UpstreamSpec = UpstreamSpec(name: string, service: string, subselector: map<string, string>, port: int,
                                       settings: string)

  /** The VirtualServer or one of its VirtualServerRoutes. */
  datatype Owner = Owner(namespace: string, upstreamPrefix: string, upstreams: seq<UpstreamSpec>)

  datatype EndpointsKey = EndpointsKey(namespace: string, service: string, subselector: map<string, string>, port: int)

  /** The VirtualServer first, then its VirtualServerRoutes; `external` has an entry for every service of type
      ExternalName. */
  datatype Ex = Ex(owners: seq<Owner>, endpoints: map<EndpointsKey, seq<string>>, external: map<string, bool>)

  /** `parameters` stands for the load balancing method, keepalive, limits and the like. */
  datatype Upstream = Upstream(name: string, service: string, servers: seq<string>, resolve: bool, parameters: string)

  const SERVER_502 := "unix:/var/lib/nginx/nginx-502-server.sock"

  function EndpointsOf(ex: Ex, o: Owner, u: UpstreamSpec): seq<string> {
    var k := EndpointsKey(o.namespace, u.service, u.subselector, u.port);
    if k in ex.endpoints then ex.endpoints[k] else []
  }

  function ServiceKey(o: Owner, u: UpstreamSpec): string {
    o.namespace + "/" + u.service
  }

  predicate Listed(ex: Ex, o: Owner, u: UpstreamSpec) {
    ServiceKey(o, u) in ex.external
  }

  predicate Marked(ex: Ex, o: Owner, u: UpstreamSpec) {
    ServiceKey(o, u) in ex.external && ex.external[ServiceKey(o, u)]
  }

  /** One generated upstream; `render` stands for the parameters that depend on the settings alone. */
  function Generated(o: Owner, u: UpstreamSpec, resolve: bool, servers: seq<string>,
                     render: UpstreamSpec -> string): Upstream {
    Upstream(o.upstreamPrefix + "_" + u.name, u.service, servers, resolve, render(u))
  }

  function FullServers(ex: Ex, o: Owner, u: UpstreamSpec, isPlus: bool, resolver: bool): seq<string> {
    var endpoints := EndpointsOf(ex, o, u);
    if !isPlus && endpoints == [] then [SERVER_502]
    else if Listed(ex, o, u) && !resolver then []
    else endpoints
  }

  /** The generated configuration's upstreams of the first `n` of an owner, those whose services are of type
      ExternalName left out or not. */
  function FullOf(ex: Ex, o: Owner, isPlus: bool, resolver: bool, withExternal: bool, render: UpstreamSpec -> string,
                  n: nat):
    seq<Upstream>
    requires n <= |o.upstreams|
  {
    if n == 0 then []
    else
      var u := o.upstreams[n - 1];
      FullOf(ex, o, isPlus, resolver, withExternal, render, n - 1) +
      if Listed(ex, o, u) && !withExternal then []
      else [Generated(o, u, Listed(ex, o, u), FullServers(ex, o, u, isPlus, resolver), render)]
  }

  function Full(ex: Ex, isPlus: bool, resolver: bool, withExternal: bool, render: UpstreamSpec -> string,
                n: nat): seq<Upstream>
    requires n <= |ex.owners|
  {
    if n == 0 then []
    else
      Full(ex, isPlus, resolver, withExternal, render, n - 1) +
      FullOf(ex, ex.owners[n - 1], isPlus, resolver, withExternal, render, |ex.owners[n - 1].upstreams|)
  }

  function FastOf(ex: Ex, o: Owner, render: UpstreamSpec -> string, n: nat): seq<Upstream>
    requires n <= |o.upstreams|
  {
    if n == 0 then []
    else
      var u := o.upstreams[n - 1];
      FastOf(ex, o, render, n - 1) +
      if Marked(ex, o, u) then [] else [Generated(o, u, false, EndpointsOf(ex, o, u), render)]
  }

  function Fast(ex: Ex, render: UpstreamSpec -> string, n: nat): seq<Upstream>
    requires n <= |ex.owners|
  {
    if n == 0 then []
    else Fast(ex, render, n - 1) + FastOf(ex, ex.owners[n - 1], render, |ex.owners[n - 1].upstreams|)
  }

  /** The generator's loop over the VirtualServer and its VirtualServerRoutes. */
  method GenerateUpstreams(ex: Ex, isPlus: bool, resolver: bool, render: UpstreamSpec -> string)
    returns (upstreams: seq<Upstream>)
    ensures upstreams == Full(ex, isPlus, resolver, true, render, |ex.owners|)
  {
    hide Generated, EndpointsOf, ServiceKey;
    upstreams := [];
    for i := 0 to |ex.owners|
      invariant upstreams == Full(ex, isPlus, resolver, true, render, i)
    {
      var o := ex.owners[i];
      ghost var before := upstreams;
      assert before + [] == before;
      for j := 0 to |o.upstreams|
        invariant upstreams == before + FullOf(ex, o, isPlus, resolver, true, render, j)
      {
        var u := o.upstreams[j];
        var endpoints := EndpointsOf(ex, o, u);
        if !isPlus && |endpoints| == 0 {
          endpoints := [SERVER_502];
        } else if ServiceKey(o, u) in ex.external && !resolver {
          endpoints := [];
        }
        var isExternal := ServiceKey(o, u) in ex.external;
        upstreams := upstreams + [Generated(o, u, isExternal, endpoints, render)];
      }
    }
  }

  /** The fast path's loop. */
  method CreateUpstreamsForPlus(ex: Ex, render: UpstreamSpec -> string) returns (upstreams: seq<Upstream>)
    ensures upstreams == Fast(ex, render, |ex.owners|)
  {
    upstreams := [];
    for i := 0 to |ex.owners|
      invariant upstreams == Fast(ex, render, i)
    {
      var o := ex.owners[i];
      ghost var before := upstreams;
      assert before + [] == before;
      for j := 0 to |o.upstreams|
        invariant upstreams == before + FastOf(ex, o, render, j)
      {
        var u := o.upstreams[j];
        var isExternal := ServiceKey(o, u) in ex.external && ex.external[ServiceKey(o, u)];
        if isExternal {
          assert before + FastOf(ex, o, render, j + 1) == before + FastOf(ex, o, render, j);
          continue;
        }
        upstreams := upstreams + [Generated(o, u, isExternal, EndpointsOf(ex, o, u), render)];
      }
    }
  }

  /** A service of the first upstreams has an entry that says it is not of type ExternalName. */
  predicate Contradicted(ex: Ex, o: Owner, n: nat)
    requires n <= |o.upstreams|
  {
    exists j :: 0 <= j < n && Listed(ex, o, o.upstreams[j]) && !Marked(ex, o, o.upstreams[j])
  }

  lemma {:induction false} FastOfOwner(ex: Ex, o: Owner, resolver: bool, render: UpstreamSpec -> string, n: nat)
    requires n <= |o.upstreams|
    ensures |FullOf(ex, o, true, resolver, false, render, n)| <= |FastOf(ex, o, render, n)|
    ensures !Contradicted(ex, o, n) ==> FastOf(ex, o, render, n) == FullOf(ex, o, true, resolver, false, render, n)
    ensures Contradicted(ex, o, n) ==> |FullOf(ex, o, true, resolver, false, render, n)| < |FastOf(ex, o, render, n)|
  {
    if n > 0 {
      FastOfOwner(ex, o, resolver, render, n - 1);
      assert Contradicted(ex, o, n) <==>
             Contradicted(ex, o, n - 1) || (Listed(ex, o, o.upstreams[n - 1]) && !Marked(ex, o, o.upstreams[n - 1]));
    }
  }

  predicate SomeContradicted(ex: Ex, n: nat)
    requires n <= |ex.owners|
  {
    exists i :: 0 <= i < n && Contradicted(ex, ex.owners[i], |ex.owners[i].upstreams|)
  }

  lemma {:induction false} FastOfOwners(ex: Ex, resolver: bool, render: UpstreamSpec -> string, n: nat)
    requires n <= |ex.owners|
    ensures |Full(ex, true, resolver, false, render, n)| <= |Fast(ex, render, n)|
    ensures !SomeContradicted(ex, n) ==> Fast(ex, render, n) == Full(ex, true, resolver, false, render, n)
    ensures SomeContradicted(ex, n) ==> |Full(ex, true, resolver, false, render, n)| < |Fast(ex, render, n)|
  {
    if n > 0 {
      var o := ex.owners[n - 1];
      FastOfOwners(ex, resolver, render, n - 1);
      FastOfOwner(ex, o, resolver, render, |o.upstreams|);
      assert SomeContradicted(ex, n) <==> SomeContradicted(ex, n - 1) || Contradicted(ex, o, |o.upstreams|);
    }
  }

  /** The fast path sends exactly the generated upstreams of the services that are not of type ExternalName, in the same
      order, with the same names, servers and parameters, whether or not a resolver is configured: if and only if no
      entry of the ExternalName table is false. (The generator asks whether there is an entry, the fast path what the
      entry says.) */
  lemma FastPathRefinesGeneratorIff(ex: Ex, resolver: bool, render: UpstreamSpec -> string)
    ensures Fast(ex, render, |ex.owners|) == Full(ex, true, resolver, false, render, |ex.owners|) <==>
            !SomeContradicted(ex, |ex.owners|)
  {
    FastOfOwners(ex, resolver, render, |ex.owners|);
  }

  /** The controller only ever enters services that are of type ExternalName (controller.go:2273, 2374). */
  predicate OnlyTrueEntries(ex: Ex) {
    forall k :: k in ex.external ==> ex.external[k]
  }

  /** So the fast path always sends exactly the generated upstreams of the services that are not of type
      ExternalName. */
  lemma FastPathRefinesGenerator(ex: Ex, resolver: bool, render: UpstreamSpec -> string)
    requires OnlyTrueEntries(ex)
    ensures Fast(ex, render, |ex.owners|) == Full(ex, true, resolver, false, render, |ex.owners|)
  {
    FastPathRefinesGeneratorIff(ex, resolver, render);
  }

  /* ----- What is generated, upstream by upstream ----- */

  function UpstreamsBefore(ex: Ex, i: nat): nat
    requires i <= |ex.owners|
  {
    if i == 0 then 0 else UpstreamsBefore(ex, i - 1) + |ex.owners[i - 1].upstreams|
  }

  lemma {:induction false} FullOfAt(ex: Ex, o: Owner, isPlus: bool, resolver: bool, render: UpstreamSpec -> string,
                                    n: nat)
    requires n <= |o.upstreams|
    ensures |FullOf(ex, o, isPlus, resolver, true, render, n)| == n
    ensures forall j :: 0 <= j < n ==>
              var u := o.upstreams[j];
              FullOf(ex, o, isPlus, resolver, true, render, n)[j] ==
              Generated(o, u, Listed(ex, o, u), FullServers(ex, o, u, isPlus, resolver), render)
  {
    hide Generated, Listed, FullServers;
    if n > 0 {
      FullOfAt(ex, o, isPlus, resolver, render, n - 1);
    }
  }

  lemma {:induction false} FullSize(ex: Ex, isPlus: bool, resolver: bool, render: UpstreamSpec -> string, n: nat)
    requires n <= |ex.owners|
    ensures |Full(ex, isPlus, resolver, true, render, n)| == UpstreamsBefore(ex, n)
  {
    hide FullOf;
    if n > 0 {
      var o := ex.owners[n - 1];
      FullSize(ex, isPlus, resolver, render, n - 1);
      FullOfAt(ex, o, isPlus, resolver, render, |o.upstreams|);
    }
  }

  lemma {:induction false} FullAt(ex: Ex, isPlus: bool, resolver: bool, render: UpstreamSpec -> string, n: nat, i: nat,
                                  j: nat)
    requires i < n <= |ex.owners| && j < |ex.owners[i].upstreams|
    ensures var o, u := ex.owners[i], ex.owners[i].upstreams[j];
            && UpstreamsBefore(ex, i) + j < |Full(ex, isPlus, resolver, true, render, n)|
            && Full(ex, isPlus, resolver, true, render, n)[UpstreamsBefore(ex, i) + j] ==
               Generated(o, u, Listed(ex, o, u), FullServers(ex, o, u, isPlus, resolver), render)
  {
    hide Generated, Listed, FullServers, FullOf;
    if i < n - 1 {
      FullAt(ex, isPlus, resolver, render, n - 1, i, j);
    } else {
      var o := ex.owners[i];
      FullSize(ex, isPlus, resolver, render, i);
      FullOfAt(ex, o, isPlus, resolver, render, |o.upstreams|);
    }
  }

  /** The generator makes one upstream of each, in order, named after its owner and itself. Its servers are the
      endpoints of its service, with two exceptions: without NGINX Plus, an upstream without endpoints has the one
      server that answers 502; and an upstream whose service is of type ExternalName has no servers if there is no
      resolver. */
  lemma GeneratedAsAsked(ex: Ex, isPlus: bool, resolver: bool, render: UpstreamSpec -> string, i: nat, j: nat)
    requires i < |ex.owners| && j < |ex.owners[i].upstreams|
    ensures var all := Full(ex, isPlus, resolver, true, render, |ex.owners|);
            var o, u := ex.owners[i], ex.owners[i].upstreams[j];
            var key, external := EndpointsKey(o.namespace, u.service, u.subselector, u.port),
                                 o.namespace + "/" + u.service in ex.external;
            && |all| == UpstreamsBefore(ex, |ex.owners|) && UpstreamsBefore(ex, i) + j < |all|
            && all[UpstreamsBefore(ex, i) + j] ==
               Upstream(o.upstreamPrefix + "_" + u.name, u.service,
                        if !isPlus && (key !in ex.endpoints || ex.endpoints[key] == []) then
                          ["unix:/var/lib/nginx/nginx-502-server.sock"]
                        else if (external && !resolver) || key !in ex.endpoints then []
                        else ex.endpoints[key],
                        external, render(u))
  {
    hide Full;
    FullSize(ex, isPlus, resolver, render, |ex.owners|);
    FullAt(ex, isPlus, resolver, render, |ex.owners|, i, j);
  }
}
