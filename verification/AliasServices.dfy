/** Services of one namespace, who owns them, and the reconciliation of a container's alias Services. */
module AliasServices {
  import opened Common

  type Name = string
  type Uid = nat
  type Port = nat

  const DOCKER_NAME := "dink.io/docker-name"
  const ALIAS_OF := "dink.io/alias-of"
  const MANAGED_BY := "app.kubernetes.io/managed-by"

  /** Names of Services: a DNS label stands for itself, any other Docker name for a hashed key. Both
      the label syntax and the hash are parameters, and distinct names may share a key. */
  datatype Naming = Naming(isLabel: Name -> bool, hash: Name -> Name) {
    function ServiceName(name: Name): Name {
      if isLabel(name) then name else "container-" + hash(name)
    }
  }

  datatype Owner = Owner(uid: Uid, oneShot: bool, name: Name)

  /** A container's workload. Everything but the Docker name is fixed at creation. */
  datatype Workload = Workload(uid: Uid, oneShot: bool, name: Name, dockerName: Name) {
    function Reference(): Owner { Owner(uid, oneShot, name) }
    function Primary(n: Naming): Name { n.ServiceName(dockerName) }
  }

  datatype Service = Service(owner: Option<Owner>, selector: Name, labels: map<Name, Name>,
                             annotations: map<Name, Name>, ports: seq<Port>, clusterIP: Name)

  type Services = map<Name, Service>

  predicate Owns(w: Workload, s: Service) {
    s.owner == Some(w.Reference()) && s.selector == w.name
  }

  predicate IsAliasOf(w: Workload, s: Service) {
    ALIAS_OF in s.labels && s.labels[ALIAS_OF] == w.name
  }

  function AnnotatedName(s: Service): Name {
    if DOCKER_NAME in s.annotations then s.annotations[DOCKER_NAME] else ""
  }

  /** The alias Service of `w` that carries over what an existing one must keep. */
  function AliasService(w: Workload, ports: seq<Port>, annotations: map<Name, Name>, clusterIP: Name): Service {
    Service(Some(w.Reference()), w.name, map["app" := w.name, ALIAS_OF := w.name, MANAGED_BY := "dink"],
            annotations, ports, clusterIP)
  }

  function Rebuilt(w: Workload, ports: seq<Port>, s: Service): Service {
    AliasService(w, ports, if AnnotatedName(s) != "" then s.annotations - {DOCKER_NAME} else s.annotations, s.clusterIP)
  }

  // ----- what reconciliation may do, one API call at a time

  /** A call on behalf of `w`: it removes or rewrites only Services `w` owns, never its primary one,
      and creates only names that are free. */
  ghost predicate AliasStep(n: Naming, w: Workload, a: Services, b: Services) {
    exists name, s :: AliasStepAt(n, w, a, b, name, s)
  }

  ghost predicate AliasStepAt(n: Naming, w: Workload, a: Services, b: Services, name: Name, s: Service) {
    && (name in a ==> Owns(w, a[name]) && name != w.Primary(n))
    && (b == a - {name} || (Owns(w, s) && b == a[name := s]))
  }

  ghost predicate AliasPath(n: Naming, w: Workload, path: seq<Services>) {
    |path| > 0 && forall i :: 0 <= i < |path| - 1 ==> AliasStep(n, w, path[i], path[i + 1])
  }

  /** A call on behalf of a container under its current name: besides the above, its primary Service may
      be rewritten, and stays its own. */
  ghost predicate ReconcileStep(n: Naming, w: Workload, a: Services, b: Services) {
    || AliasStep(n, w, a, b)
    || exists s :: Owns(w, s) && w.Primary(n) in a && Owns(w, a[w.Primary(n)]) && b == a[w.Primary(n) := s]
  }

  ghost predicate ReconcilePath(n: Naming, w: Workload, path: seq<Services>) {
    |path| > 0 && forall i :: 0 <= i < |path| - 1 ==> ReconcileStep(n, w, path[i], path[i + 1])
  }

  /** Services that `w` does not own are as they were, and so is the primary Service of `w`. */
  ghost predicate Untouched(n: Naming, w: Workload, a: Services, b: Services) {
    && (forall name :: name in a && (a[name].owner != Some(Owner(w.uid, w.oneShot, w.name)) || a[name].selector != w.name) ==>
          name in b && b[name] == a[name])
    && (w.Primary(n) in a ==> w.Primary(n) in b && b[w.Primary(n)] == a[w.Primary(n)])
    && (forall name :: name in b && name !in a ==> Owns(w, b[name]))
  }

  /** The goal: requested aliases are Services of `w`, and `w` has no other alias Service than these
      and, possibly, its primary one. */
  ghost predicate Reconciled(n: Naming, w: Workload, aliases: seq<Name>, s: Services) {
    && (forall alias :: alias in aliases ==> alias in s && Owns(w, s[alias]))
    && OnlyWanted(n, w, aliases, s)
  }

  ghost predicate OnlyWanted(n: Naming, w: Workload, aliases: seq<Name>, s: Services) {
    forall name :: name in s && IsAliasOf(w, s[name]) ==> name in aliases || name == w.Primary(n)
  }

  /** What the first loop removes. */
  predicate Unwanted(n: Naming, w: Workload, aliases: seq<Name>, name: Name, s: Service) {
    IsAliasOf(w, s) && name !in aliases && name != w.Primary(n)
  }

  /** Beyond the requested aliases nothing changes, except that unwanted alias Services may go. */
  ghost predicate Spared(n: Naming, w: Workload, aliases: seq<Name>, a: Services, b: Services) {
    && (forall name :: name in b && name !in aliases ==> name in a && b[name] == a[name])
    && (forall name :: name in a && name !in aliases && !Unwanted(n, w, aliases, name, a[name]) ==> name in b)
  }

  /** A state that reconciliation leaves as it is. */
  ghost predicate Settled(n: Naming, w: Workload, aliases: seq<Name>, ports: seq<Port>, s: Services) {
    OnlyWanted(n, w, aliases, s) && forall alias :: alias in aliases ==> AliasDone(n, w, ports, s, alias)
  }

  ghost predicate AliasDone(n: Naming, w: Workload, ports: seq<Port>, s: Services, alias: Name) {
    alias in s && Owns(w, s[alias]) && (alias == w.Primary(n) || AliasSettled(w, ports, s[alias]))
  }

  /** It serves the alias as requested, or stands for the container's own Docker name. */
  ghost predicate AliasSettled(w: Workload, ports: seq<Port>, s: Service) {
    HasName(w, s) || ServesAlias(w, ports, s)
  }

  predicate HasName(w: Workload, s: Service) {
    DOCKER_NAME in s.annotations && s.annotations[DOCKER_NAME] == w.dockerName != ""
  }

  /** A Service that leads to the Pods of `w` on the requested ports, is labelled as an alias of `w` and
      stands for no Docker name. */
  predicate ServesAlias(w: Workload, ports: seq<Port>, s: Service) {
    && s.owner == Some(Owner(w.uid, w.oneShot, w.name)) && s.selector == w.name && s.ports == ports
    && s.labels == map["app" := w.name, "dink.io/alias-of" := w.name, "app.kubernetes.io/managed-by" := "dink"]
    && (DOCKER_NAME in s.annotations ==> s.annotations[DOCKER_NAME] == "")
  }

  /** On success: every requested alias other than the primary one serves, or stands for the container's
      own name, and what an existing Service had to keep it kept. */
  ghost predicate Serving(n: Naming, w: Workload, aliases: seq<Name>, ports: seq<Port>, a: Services, b: Services) {
    forall alias :: alias in aliases && alias != w.Primary(n) ==>
      && alias in b && (HasName(w, b[alias]) || (ServesAlias(w, ports, b[alias]) && IsAliasOf(w, b[alias])))
      && Keeps(ports, a, b, alias)
  }

  /** An existing Service keeps its address and its other annotations; a new one without ports has no
      address. */
  ghost predicate Keeps(ports: seq<Port>, a: Services, b: Services, name: Name)
    requires name in b
  {
    if name in a then b[name].clusterIP == a[name].clusterIP && b[name].annotations - {DOCKER_NAME} == a[name].annotations - {DOCKER_NAME}
    else b[name].annotations - {DOCKER_NAME} == map[] && (ports == [] ==> b[name].clusterIP == "None")
  }

  /** What one alias may change. */
  ghost predicate OneApplied(n: Naming, w: Workload, ports: seq<Port>, a: Services, b: Services, alias: Name) {
    && a.Keys <= b.Keys
    && (forall name :: name in b && name != alias ==> name in a && b[name] == a[name])
    && (alias in b ==> Keeps(ports, a, b, alias))
    && (AliasDone(n, w, ports, a, alias) ==> b == a)
    && (AliasFree(n, w, b, alias) <==> AliasFree(n, w, a, alias))
  }

  /** What a number of them may change. */
  ghost predicate SomeApplied(n: Naming, w: Workload, aliases: seq<Name>, ports: seq<Port>, a: Services, b: Services) {
    && a.Keys <= b.Keys && OnlyWanted(n, w, aliases, b)
    && (forall name :: name in b && name !in aliases ==> name in a && b[name] == a[name])
    && (forall name :: name in b ==> Keeps(ports, a, b, name))
    && (Settled(n, w, aliases, ports, a) ==> b == a)
    && (forall alias :: alias in aliases ==> (AliasFree(n, w, b, alias) <==> AliasFree(n, w, a, alias)))
  }

  lemma AppliedNext(n: Naming, w: Workload, aliases: seq<Name>, ports: seq<Port>, a: Services, b: Services, c: Services, alias: Name)
    requires SomeApplied(n, w, aliases, ports, a, b) && OneApplied(n, w, ports, b, c, alias) && alias in aliases
    ensures SomeApplied(n, w, aliases, ports, a, c)
  {
    forall name | name in c
      ensures Keeps(ports, a, c, name)
    {
      if name in b { assert Keeps(ports, a, b, name); }
    }
  }

  /** A later run takes down the aliases of an earlier one that are not requested any more. */
  lemma EarlierAliasesGo(n: Naming, w: Workload, a: seq<Name>, b: seq<Name>, ports: seq<Port>, s0: Services, s1: Services, s2: Services)
    requires Serving(n, w, a, ports, s0, s1)
    requires Spared(n, w, b, s1, s2) && Reconciled(n, w, b, s2)
    ensures forall name :: name in a && name !in b && name != w.Primary(n) && !HasName(w, s1[name]) ==> name !in s2
  {
  }

  datatype Error = ApiError | Conflict(name: Name)

  /** When reconciliation can succeed: alias Services to be dropped belong to `w`, and a requested name
      that is taken, as the primary one has to be, is taken by `w`. */
  ghost predicate Reconcilable(n: Naming, w: Workload, aliases: seq<Name>, s: Services) {
    && (forall name :: name in s && IsAliasOf(w, s[name]) ==> name in aliases || name == w.Primary(n) || Owns(w, s[name]))
    && (forall alias :: alias in aliases ==> AliasFree(n, w, s, alias))
  }

  ghost predicate AliasFree(n: Naming, w: Workload, s: Services, alias: Name) {
    if alias in s then Owns(w, s[alias]) else alias != w.Primary(n)
  }

  lemma DoneStays(n: Naming, w: Workload, ports: seq<Port>, a: Services, b: Services, done: seq<Name>, alias: Name)
    requires forall name :: name in done ==> AliasDone(n, w, ports, a, name)
    requires forall name :: name != alias ==> (name in b <==> name in a)
    requires forall name :: name != alias && name in b ==> b[name] == a[name]
    requires AliasDone(n, w, ports, b, alias)
    ensures forall name :: name in done ==> AliasDone(n, w, ports, b, name)
  {
  }

  lemma {:induction false} PathUntouched(n: Naming, w: Workload, path: seq<Services>)
    requires AliasPath(n, w, path)
    ensures Untouched(n, w, path[0], path[|path| - 1])
    decreases |path|
  {
    if |path| > 1 {
      var q := path[..|path| - 1];
      assert forall i :: 0 <= i < |q| - 1 ==> AliasStep(n, w, path[i], path[i + 1]);
      PathUntouched(n, w, q);
      assert AliasStep(n, w, path[|path| - 2], path[|path| - 2 + 1]);
    }
  }

  // ----- the end of a rename

  /** The primary Service, marked with the name it stands for and as no alias. */
  function Marked(w: Workload, s: Service): Service {
    s.(annotations := s.annotations[DOCKER_NAME := w.dockerName], labels := s.labels - {ALIAS_OF})
  }

  /** The primary Service carries the name and is no alias; it is otherwise as it was. */
  ghost predicate IsMarked(n: Naming, w: Workload, a: Services, b: Services) {
    var key := w.Primary(n);
    && key in a && key in b && Owns(w, b[key])
    && DOCKER_NAME in b[key].annotations && b[key].annotations[DOCKER_NAME] == w.dockerName && ALIAS_OF !in b[key].labels
    && b[key] == a[key].(annotations := b[key].annotations, labels := b[key].labels)
    && b[key].annotations - {DOCKER_NAME} == a[key].annotations - {DOCKER_NAME} && b[key].labels == a[key].labels - {ALIAS_OF}
  }

  /** `s`, under `name`, belongs to `w` and bears a Docker name; or it was created with `w` before names
      were recorded. */
  ghost predicate Stood(w: Workload, name: Name, s: Service) {
    && s.owner == Some(Owner(w.uid, w.oneShot, w.name)) && s.selector == w.name
    && "app" in s.labels && s.labels["app"] == w.name
    && ((DOCKER_NAME in s.annotations && s.annotations[DOCKER_NAME] != "") ||
        (name == w.name && (ALIAS_OF in s.labels ==> s.labels[ALIAS_OF] == "")))
  }

  /** A Service of `w` that stands, or stood, for its Docker name; the last case is the Service a
      workload is created with under its own name. */
  predicate StandsForName(w: Workload, name: Name, s: Service) {
    && "app" in s.labels && s.labels["app"] == w.name && Owns(w, s)
    && (AnnotatedName(s) != "" || (name == w.name && (ALIAS_OF !in s.labels || s.labels[ALIAS_OF] == "")))
  }

  predicate Stale(n: Naming, w: Workload, aliases: seq<Name>, name: Name, s: Service) {
    name != w.Primary(n) && name !in aliases && StandsForName(w, name, s)
  }

  /** Beyond the primary Service and the aliases nothing changes, except that what is unwanted or stale
      may go. */
  ghost predicate Renamed(n: Naming, w: Workload, aliases: seq<Name>, a: Services, b: Services) {
    && (forall name :: name in b && name !in aliases && name != w.Primary(n) ==> name in a && b[name] == a[name])
    && (forall name :: name in a && name !in aliases && name != w.Primary(n) && name !in b ==>
          Unwanted(n, w, aliases, name, a[name]) || Stale(n, w, aliases, name, a[name]))
  }

  /** What the last loop of a rename leaves: nothing is rewritten, only stale Services may go. */
  ghost predicate Swept(n: Naming, w: Workload, aliases: seq<Name>, a: Services, b: Services) {
    && (forall name :: name in b ==> name in a && b[name] == a[name])
    && (forall name :: name in a && name !in b ==> Stale(n, w, aliases, name, a[name]))
  }

  /** The primary Service is marked, the aliases are as requested, and no other Service stands for `w`: in
      particular none of those that did before, so that the old name is free. */
  ghost predicate RenameDone(n: Naming, w: Workload, aliases: seq<Name>, a: Services, b: Services) {
    && IsMarked(n, w, a, b) && Reconciled(n, w, aliases, b)
    && (forall name :: name in b && name !in aliases && name != w.Primary(n) ==> !Stood(w, name, b[name]))
    && (forall name :: name in a && name !in aliases && name != w.Primary(n) && Stood(w, name, a[name]) ==> name !in b)
  }

  lemma MarkedReconcilable(n: Naming, w: Workload, aliases: seq<Name>, a: Services)
    requires w.Primary(n) in a && Owns(w, a[w.Primary(n)])
    ensures Reconcilable(n, w, aliases, a[w.Primary(n) := Marked(w, a[w.Primary(n)])]) <==> Reconcilable(n, w, aliases, a)
  {
    var b := a[w.Primary(n) := Marked(w, a[w.Primary(n)])];
    assert forall alias :: AliasFree(n, w, b, alias) <==> AliasFree(n, w, a, alias);
  }

  /** The same, but for the mark. */
  ghost predicate Resettled(n: Naming, w: Workload, aliases: seq<Name>, a: Services, b: Services) {
    && Reconciled(n, w, aliases, b)
    && (forall name :: name in b ==> !Stale(n, w, aliases, name, b[name]))
    && (forall name :: name in a && Stale(n, w, aliases, name, a[name]) ==> name !in b)
  }

  lemma SweptRenamed(n: Naming, w: Workload, aliases: seq<Name>, a: Services, p: Services, b: Services)
    requires Untouched(n, w, a, p) && Spared(n, w, aliases, a, p) && Swept(n, w, aliases, p, b)
    ensures Renamed(n, w, aliases, a, b) && (w.Primary(n) in a ==> w.Primary(n) in b && b[w.Primary(n)] == a[w.Primary(n)])
    ensures Reconciled(n, w, aliases, p) && (forall name :: name in b ==> !Stale(n, w, aliases, name, b[name])) ==>
              Resettled(n, w, aliases, a, b)
  {
  }

  lemma MarkedRenamed(n: Naming, w: Workload, aliases: seq<Name>, a: Services, b: Services)
    requires w.Primary(n) in a && Owns(w, a[w.Primary(n)])
    requires var m := a[w.Primary(n) := Marked(w, a[w.Primary(n)])];
             Renamed(n, w, aliases, m, b) && w.Primary(n) in b && b[w.Primary(n)] == m[w.Primary(n)]
    ensures Renamed(n, w, aliases, a, b)
    ensures Resettled(n, w, aliases, a[w.Primary(n) := Marked(w, a[w.Primary(n)])], b) ==> RenameDone(n, w, aliases, a, b)
  {
    forall name | name in b && name !in aliases && name != w.Primary(n)
      ensures Stale(n, w, aliases, name, b[name]) <==> Stood(w, name, b[name])
    {}
  }

  // ----- the reconciliation itself

  class Cluster {
    var services: Services

    constructor (services: Services)
      ensures this.services == services
    {
      this.services := services;
    }

    /** `applyAliasServices`. Unless the API is `healthy`, any call may fail. `path` records the states
        between the calls. */
    method ApplyAliasServices(n: Naming, w: Workload, aliases: seq<Name>, ports: seq<Port>, healthy: bool)
      returns (err: Option<Error>, ghost path: seq<Services>)
      modifies this
      ensures AliasPath(n, w, path) && path[0] == old(services) && path[|path| - 1] == services
      ensures Untouched(n, w, old(services), services)
      ensures Spared(n, w, aliases, old(services), services)
      ensures err.None? ==> Reconciled(n, w, aliases, services) && Settled(n, w, aliases, ports, services)
      ensures err.None? ==> Serving(n, w, aliases, ports, old(services), services)
      ensures Settled(n, w, aliases, ports, old(services)) ==> services == old(services)
      ensures healthy ==> (err.None? <==> Reconcilable(n, w, aliases, old(services)))
    {
      err, path := DropUnwanted(n, w, aliases, healthy);
      ghost var dropped := services;
      assert forall alias :: alias in aliases ==> (AliasFree(n, w, old(services), alias) <==> AliasFree(n, w, dropped, alias));
      if err.None? { err, path := ApplyAll(n, w, aliases, ports, healthy, path); }
      PathUntouched(n, w, path);
    }

    /** `ContainerRename` after the new name was written; `w` has it. If it succeeds the primary Service
        is marked with the name and no other one stands for `w`, so that the old name is free. */
    method FinishRename(n: Naming, w: Workload, aliases: seq<Name>, ports: seq<Port>, healthy: bool)
      returns (err: Option<Error>, ghost path: seq<Services>)
      modifies this
      ensures ReconcilePath(n, w, path) && path[0] == old(services) && path[|path| - 1] == services
      ensures Renamed(n, w, aliases, old(services), services)
      ensures err.None? ==> RenameDone(n, w, aliases, old(services), services)
      ensures healthy ==> (err.None? <==> w.Primary(n) in old(services) && Owns(w, old(services)[w.Primary(n)]) &&
                                          Reconcilable(n, w, aliases, old(services)))
    {
      err, path := MarkPrimary(n, w, healthy);
      if err.Some? { return; }
      MarkedReconcilable(n, w, aliases, old(services));
      err, path := Resettle(n, w, aliases, ports, healthy, path);
      MarkedRenamed(n, w, aliases, old(services), services);
    }

    /** The aliases first, then the last loop. */
    method Resettle(n: Naming, w: Workload, aliases: seq<Name>, ports: seq<Port>, healthy: bool, ghost path0: seq<Services>)
      returns (err: Option<Error>, ghost path: seq<Services>)
      requires ReconcilePath(n, w, path0) && path0[|path0| - 1] == services
      modifies this
      ensures ReconcilePath(n, w, path) && path[0] == path0[0] && path[|path| - 1] == services
      ensures Renamed(n, w, aliases, old(services), services)
      ensures w.Primary(n) in old(services) ==> w.Primary(n) in services && services[w.Primary(n)] == old(services)[w.Primary(n)]
      ensures err.None? ==> Resettled(n, w, aliases, old(services), services)
      ensures healthy ==> (err.None? <==> Reconcilable(n, w, aliases, old(services)))
    {
      ghost var more;
      err, more := ApplyAliasServices(n, w, aliases, ports, healthy);
      path := Joined(n, w, path0, more);
      ghost var applied := services;
      if err.None? {
        err, more := DropStale(n, w, aliases, healthy);
        path := Joined(n, w, path, more);
      }
      SweptRenamed(n, w, aliases, old(services), applied, services);
    }

    /** The Service of the new name has to be there and the container's own. */
    method MarkPrimary(n: Naming, w: Workload, healthy: bool) returns (err: Option<Error>, ghost path: seq<Services>)
      modifies this
      ensures ReconcilePath(n, w, path) && path[0] == old(services) && path[|path| - 1] == services
      ensures err.Some? ==> services == old(services)
      ensures err.None? ==> w.Primary(n) in old(services) && Owns(w, old(services)[w.Primary(n)]) &&
                            services == old(services)[w.Primary(n) := Marked(w, old(services)[w.Primary(n)])]
      ensures healthy ==> (err.None? <==> w.Primary(n) in old(services) && Owns(w, old(services)[w.Primary(n)]))
    {
      var key := w.Primary(n);
      path := [services];
      if !healthy { if * { return Some(ApiError), path; } }
      if key !in services { return Some(ApiError), path; }
      if !Owns(w, services[key]) { return Some(Conflict(key)), path; }
      if !healthy { if * { return Some(ApiError), path; } }
      var primary := Marked(w, services[key]);
      var marked := services[key := primary];
      assert Owns(w, primary) && ReconcileStep(n, w, services, marked);
      services, path := marked, [services, marked];
      return None, path;
    }

    /** The last loop: other Services that stand for `w` go. */
    method DropStale(n: Naming, w: Workload, aliases: seq<Name>, healthy: bool) returns (err: Option<Error>, ghost path: seq<Services>)
      modifies this
      ensures AliasPath(n, w, path) && path[0] == old(services) && path[|path| - 1] == services
      ensures Swept(n, w, aliases, old(services), services)
      ensures err.None? ==> forall name :: name in services ==> !Stale(n, w, aliases, name, services[name])
      ensures healthy ==> err.None?
    {
      path := [services];
      err := None;
      if !healthy { if * { return Some(ApiError), path; } }
      var todo := set name | name in services && "app" in services[name].labels && services[name].labels["app"] == w.name;
      while todo != {}
        invariant AliasPath(n, w, path) && path[0] == old(services) && path[|path| - 1] == services
        invariant forall name :: name in todo ==> name in services
        invariant forall name :: name in services && Stale(n, w, aliases, name, services[name]) ==> name in todo
        invariant Swept(n, w, aliases, old(services), services)
        decreases todo
      {
        var name :| name in todo;
        todo := todo - {name};
        if !Stale(n, w, aliases, name, services[name]) { continue; }
        if !healthy { if * { return Some(ApiError), path; } }
        assert AliasStepAt(n, w, services, services - {name}, name, services[name]);
        services := services - {name};
        path := Extend(n, w, path, services);
      }
    }

    /** The second loop: every requested alias in turn. */
    method ApplyAll(n: Naming, w: Workload, aliases: seq<Name>, ports: seq<Port>, healthy: bool, ghost path0: seq<Services>)
      returns (err: Option<Error>, ghost path: seq<Services>)
      requires AliasPath(n, w, path0) && path0[|path0| - 1] == services && OnlyWanted(n, w, aliases, services)
      modifies this
      ensures AliasPath(n, w, path) && path[0] == path0[0] && path[|path| - 1] == services
      ensures err.None? ==> Settled(n, w, aliases, ports, services)
      ensures SomeApplied(n, w, aliases, ports, old(services), services)
      ensures healthy ==> (err.None? <==> forall alias :: alias in aliases ==> AliasFree(n, w, old(services), alias))
    {
      err, path := None, path0;
      for i := 0 to |aliases|
        invariant err.None? && AliasPath(n, w, path) && path[0] == path0[0] && path[|path| - 1] == services
        invariant SomeApplied(n, w, aliases, ports, old(services), services)
        invariant forall alias :: alias in aliases[..i] ==> AliasDone(n, w, ports, services, alias)
      {
        assert aliases[..i + 1] == aliases[..i] + [aliases[i]] && aliases[i] in aliases;
        ghost var before := services;
        err := ApplyOne(n, w, aliases[i], ports, healthy);
        path := Extend(n, w, path, services);
        AppliedNext(n, w, aliases, ports, old(services), before, services, aliases[i]);
        if err.Some? { return; }
        DoneStays(n, w, ports, before, services, aliases[..i], aliases[i]);
      }
      assert aliases[..|aliases|] == aliases;
      assert forall alias :: alias in aliases ==> AliasDone(n, w, ports, services, alias) && AliasFree(n, w, services, alias);
    }

    /** The first loop: alias Services of `w` that are not requested go, except the primary one. */
    method DropUnwanted(n: Naming, w: Workload, aliases: seq<Name>, healthy: bool) returns (err: Option<Error>, ghost path: seq<Services>)
      modifies this
      ensures AliasPath(n, w, path) && path[0] == old(services) && path[|path| - 1] == services
      ensures err.None? ==> OnlyWanted(n, w, aliases, services)
      ensures OnlyWanted(n, w, aliases, old(services)) ==> services == old(services)
      ensures forall name :: name in services ==> name in old(services) && services[name] == old(services)[name]
      ensures forall name :: name in old(services) && !Unwanted(n, w, aliases, name, old(services)[name]) ==> name in services
      ensures healthy ==> (err.None? <==> forall name :: name in old(services) && IsAliasOf(w, old(services)[name]) ==>
                name in aliases || name == w.Primary(n) || Owns(w, old(services)[name]))
    {
      path := [services];
      err := None;
      if !healthy { if * { return Some(ApiError), path; } }
      var todo := set name | name in services && IsAliasOf(w, services[name]);
      while todo != {}
        invariant AliasPath(n, w, path) && path[0] == old(services) && path[|path| - 1] == services
        invariant forall name :: name in todo ==> name in services && IsAliasOf(w, services[name])
        invariant forall name :: name in services && IsAliasOf(w, services[name]) && name !in todo ==>
                                   name in aliases || name == w.Primary(n)
        invariant OnlyWanted(n, w, aliases, old(services)) ==> services == old(services)
        invariant forall name :: name in services ==> name in old(services) && services[name] == old(services)[name]
        invariant forall name :: name in old(services) && name !in services ==> Owns(w, old(services)[name]) && Unwanted(n, w, aliases, name, old(services)[name])
        decreases todo
      {
        var name :| name in todo;
        todo := todo - {name};
        if name in aliases || name == w.Primary(n) { continue; }
        if !Owns(w, services[name]) { return Some(Conflict(name)), path; }
        if !healthy { if * { return Some(ApiError), path; } }
        assert AliasStepAt(n, w, services, services - {name}, name, services[name]);
        services := services - {name};
        path := Extend(n, w, path, services);
      }
    }

    /** One alias: a free name gets a Service, a Service of `w` is rewritten, any other is a conflict. */
    method ApplyOne(n: Naming, w: Workload, alias: Name, ports: seq<Port>, healthy: bool) returns (err: Option<Error>)
      modifies this
      ensures services == old(services) || AliasStep(n, w, old(services), services)
      ensures OneApplied(n, w, ports, old(services), services, alias)
      ensures err.None? ==> AliasDone(n, w, ports, services, alias)
      ensures healthy ==> (err.None? <==> AliasFree(n, w, old(services), alias))
    {
      err := None;
      if !healthy { if * { return Some(ApiError); } }
      if alias == w.Primary(n) {
        if alias !in services { return Some(ApiError); }
        if !Owns(w, services[alias]) { return Some(Conflict(alias)); }
        return;
      }
      if alias !in services {
        var address: Name := *;
        var created := AliasService(w, ports, map[], if ports == [] then "None" else address);
        assert AliasStepAt(n, w, services, services[alias := created], alias, created);
        services := services[alias := created];
        return;
      }
      var current := services[alias];
      if !Owns(w, current) { return Some(Conflict(alias)); }
      if AnnotatedName(current) != "" && AnnotatedName(current) == w.dockerName { return; }
      if !healthy { if * { return Some(ApiError); } }
      var updated := Rebuilt(w, ports, current);
      assert AliasStepAt(n, w, services, services[alias := updated], alias, updated);
      services := services[alias := updated];
    }
  }

  /** One stretch of calls after another. */
  ghost method Joined(n: Naming, w: Workload, a: seq<Services>, b: seq<Services>) returns (path: seq<Services>)
    requires ReconcilePath(n, w, a) && AliasPath(n, w, b) && a[|a| - 1] == b[0]
    ensures ReconcilePath(n, w, path) && path[0] == a[0] && path[|path| - 1] == b[|b| - 1]
  {
    path := a + b[1..];
    forall i | 0 <= i < |path| - 1
      ensures ReconcileStep(n, w, path[i], path[i + 1])
    {
      if i < |a| - 1 {
        assert ReconcileStep(n, w, a[i], a[i + 1]);
      } else {
        assert AliasStep(n, w, b[i - |a| + 1], b[i - |a| + 1 + 1]);
      }
    }
  }

  ghost method Extend(n: Naming, w: Workload, path: seq<Services>, s: Services) returns (longer: seq<Services>)
    requires AliasPath(n, w, path) && (path[|path| - 1] == s || AliasStep(n, w, path[|path| - 1], s))
    ensures AliasPath(n, w, longer) && longer[0] == path[0] && longer[|longer| - 1] == s
  {
    if path[|path| - 1] == s { return path; }
    longer := path + [s];
    forall i | 0 <= i < |longer| - 1
      ensures AliasStep(n, w, longer[i], longer[i + 1])
    {
      if i < |path| - 1 { assert AliasStep(n, w, path[i], path[i + 1]); }
    }
  }
}
