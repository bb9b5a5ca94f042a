/** Docker networks as Kubernetes NetworkPolicies.

    Pods carry a label for each network they are on. One policy denies ingress to Dink Pods, one per
    network lets its members reach each other, and one per workload opens its published ports. Docker
    labels may add Pod labels, except under keys that Dink reserves. */
module NetworkIsolation {
  import opened Common
  import opened RepositoryNames

  type Labels = map<string, string>

  const APP := "app"
  const MANAGED_BY := "app.kubernetes.io/managed-by"
  const DINK := "dink"
  const NETWORK_PREFIX := "dink.io/network-"
  const POD_LABEL := "dink.io/pod-label/"
  const POD_ANNOTATION := "dink.io/pod-annotation/"

  // ----- Pod metadata from Docker labels

  /** The part of a key before its first slash, if it has one. */
  function Domain(key: string): Option<string> {
    if key == [] then None
    else if key[0] == '/' then Some([])
    else match Domain(key[1..])
      case None => None
      case Some(rest) => Some([key[0]] + rest)
  }

  predicate HasSuffix(s: string, suffix: string) {
    |suffix| <= |s| && s[|s| - |suffix|..] == suffix
  }

  predicate Reserved(key: string) {
    || key == APP || key == MANAGED_BY
    || (Domain(key).Some? && (Domain(key).value == "dink.io" || HasSuffix(Domain(key).value, ".dink.io")))
  }

  /** The syntax rules of Kubernetes metadata are parameters. */
  datatype Rules = Rules(qualifiedName: string -> bool, labelValue: string -> bool, sizeOk: Labels -> bool)

  predicate Acceptable(rules: Rules, labels: Labels, source: string)
    requires source in labels
  {
    if POD_LABEL <= source then
      var key := source[|POD_LABEL|..];
      rules.qualifiedName(key) && !Reserved(key) && rules.labelValue(labels[source])
    else if POD_ANNOTATION <= source then
      var key := source[|POD_ANNOTATION|..];
      rules.qualifiedName(key) && !Reserved(key)
    else true
  }

  /** A key is reserved if and only if it is one of Dink's two, or its domain is dink.io or below it. */
  lemma ReservedMeans(key: string)
    ensures Reserved(key) <==>
            key == "app" || key == "app.kubernetes.io/managed-by" || exists domain, rest :: UnderDink(key, domain, rest)
  {
    DomainMeans(key);
    if Domain(key).Some? {
      var domain := Domain(key).value;
      var rest := key[|domain| + 1..];
      assert key == domain + "/" + rest;
      if HasSuffix(domain, ".dink.io") {
        assert domain == domain[..|domain| - 8] + ".dink.io";
      }
      assert Reserved(key) && key != APP && key != MANAGED_BY ==> UnderDink(key, domain, rest);
    }
    if domain, rest :| UnderDink(key, domain, rest) {
      DomainOf(domain, rest);
    }
  }

  ghost predicate UnderDink(key: string, domain: string, rest: string) {
    key == domain + "/" + rest && '/' !in domain && (domain == "dink.io" || exists sub :: domain == sub + ".dink.io")
  }

  /** The domain is what stands before the first slash. */
  lemma {:induction false} DomainMeans(key: string)
    ensures Domain(key).None? <==> '/' !in key
    ensures Domain(key).Some? ==>
              var d := Domain(key).value; '/' !in d && |d| < |key| && key[..|d|] == d && key[|d|] == '/'
  {
    if key != [] && key[0] != '/' {
      DomainMeans(key[1..]);
      assert key == [key[0]] + key[1..];
      if Domain(key).Some? {
        var d := Domain(key[1..]).value;
        assert key[..|d| + 1] == [key[0]] + key[1..][..|d|];
      }
    }
  }

  /** What is wrong with a Docker label: it asks for Pod metadata under a key that is reserved or is no
      qualified name, or for a Pod label with a value that is none. */
  ghost predicate Bad(rules: Rules, labels: Labels, source: string) {
    source in labels && exists key ::
      || (source == "dink.io/pod-label/" + key && (!rules.qualifiedName(key) || Reserved(key) || !rules.labelValue(labels[source])))
      || (source == "dink.io/pod-annotation/" + key && (!rules.qualifiedName(key) || Reserved(key)))
  }

  lemma AcceptableMeans(rules: Rules, labels: Labels, source: string)
    requires source in labels
    ensures Acceptable(rules, labels, source) <==> !Bad(rules, labels, source)
  {
    PrefixesApart(source);
    if POD_LABEL <= source {
      var key := source[|POD_LABEL|..];
      assert source == POD_LABEL + key;
      assert forall k :: source == POD_LABEL + k ==> k == key;
    } else if POD_ANNOTATION <= source {
      var key := source[|POD_ANNOTATION|..];
      assert source == POD_ANNOTATION + key;
      assert forall k :: source == POD_ANNOTATION + k ==> k == key;
    }
    assert forall k :: POD_LABEL <= POD_LABEL + k && POD_ANNOTATION <= POD_ANNOTATION + k;
  }

  /** The entries of `labels` under `prefix`, among the given keys, with the prefix taken off. */
  ghost function Stripped(labels: Labels, among: set<string>, prefix: string): Labels {
    map key | key in (set source | source in among && source in labels && prefix <= source :: source[|prefix|..]) &&
              prefix + key in labels :: labels[prefix + key]
  }

  /** Later label sets override earlier ones. */
  ghost function Merged(sets: seq<Labels>, prefix: string): Labels {
    if sets == [] then map[]
    else
      var last := sets[|sets| - 1];
      Merged(sets[..|sets| - 1], prefix) + Stripped(last, last.Keys, prefix)
  }

  lemma StrippedNext(base: Labels, labels: Labels, among: set<string>, prefix: string, source: string)
    requires source in labels
    ensures base + Stripped(labels, among + {source}, prefix) ==
            if prefix <= source then (base + Stripped(labels, among, prefix))[source[|prefix|..] := labels[source]]
            else base + Stripped(labels, among, prefix)
  {
    if prefix <= source {
      assert prefix + source[|prefix|..] == source;
      assert Stripped(labels, among + {source}, prefix) == Stripped(labels, among, prefix)[source[|prefix|..] := labels[source]];
    } else {
      assert Stripped(labels, among + {source}, prefix) == Stripped(labels, among, prefix);
    }
  }

  lemma MergedNext(sets: seq<Labels>, i: nat, prefix: string)
    requires i < |sets|
    ensures Merged(sets[..i + 1], prefix) == Merged(sets[..i], prefix) + Stripped(sets[i], sets[i].Keys, prefix)
  {
    assert sets[..i + 1][..i] == sets[..i] && sets[..i + 1][i] == sets[i];
  }

  /** The last set that has an entry is number `i`. */
  ghost predicate LastAsks(sets: seq<Labels>, source: string, i: int) {
    0 <= i < |sets| && source in sets[i] && forall j :: i < j < |sets| ==> source !in sets[j]
  }

  /** The merge holds a key exactly if some set asks for it, with what the last such set asks for. */
  lemma {:induction false} MergedMeans(sets: seq<Labels>, prefix: string, key: string)
    ensures key in Merged(sets, prefix) ==> exists i :: LastAsks(sets, prefix + key, i)
    ensures forall i :: LastAsks(sets, prefix + key, i) ==>
              key in Merged(sets, prefix) && Merged(sets, prefix)[key] == sets[i][prefix + key]
  {
    if sets != [] {
      MergedMeans(sets[..|sets| - 1], prefix, key);
      MergedLast(sets, prefix, key);
      LastAsksNext(sets, prefix + key);
      var init, n := sets[..|sets| - 1], |sets| - 1;
      if prefix + key in sets[n] {
        assert LastAsks(sets, prefix + key, n);
      } else if key in Merged(init, prefix) {
        var i :| LastAsks(init, prefix + key, i);
        assert LastAsks(sets, prefix + key, i) && sets[i] == init[i];
      }
    }
  }

  lemma MergedLast(sets: seq<Labels>, prefix: string, key: string)
    requires sets != []
    ensures var init, last := sets[..|sets| - 1], sets[|sets| - 1];
            if prefix + key in last then key in Merged(sets, prefix) && Merged(sets, prefix)[key] == last[prefix + key]
            else if key in Merged(init, prefix) then key in Merged(sets, prefix) && Merged(sets, prefix)[key] == Merged(init, prefix)[key]
            else key !in Merged(sets, prefix)
  {
    StrippedMeans(sets[|sets| - 1], prefix, key);
  }

  lemma LastAsksNext(sets: seq<Labels>, source: string)
    requires sets != []
    ensures var n := |sets| - 1;
            if source in sets[n] then forall i :: LastAsks(sets, source, i) <==> i == n
            else forall i :: LastAsks(sets, source, i) <==> LastAsks(sets[..n], source, i)
  {
    var n := |sets| - 1;
    assert forall i :: 0 <= i < n ==> sets[..n][i] == sets[i];
  }

  lemma StrippedMeans(labels: Labels, prefix: string, key: string)
    ensures key in Stripped(labels, labels.Keys, prefix) <==> prefix + key in labels
    ensures prefix + key in labels ==> Stripped(labels, labels.Keys, prefix)[key] == labels[prefix + key]
  {
    assert (prefix + key)[|prefix|..] == key;
    assert prefix <= prefix + key;
  }

  ghost predicate SetAcceptable(rules: Rules, labels: Labels) {
    forall source :: !Bad(rules, labels, source)
  }

  ghost predicate AllAcceptable(rules: Rules, sets: seq<Labels>) {
    sets == [] || (AllAcceptable(rules, sets[..|sets| - 1]) && SetAcceptable(rules, sets[|sets| - 1]))
  }

  lemma {:induction false} PrefixAcceptable(rules: Rules, sets: seq<Labels>, i: nat)
    requires i <= |sets| && AllAcceptable(rules, sets)
    ensures AllAcceptable(rules, sets[..i])
    decreases |sets|
  {
    if i < |sets| {
      var init := sets[..|sets| - 1];
      assert init[..i] == sets[..i];
      PrefixAcceptable(rules, init, i);
    } else {
      assert sets[..i] == sets;
    }
  }

  datatype MetadataError = BadKey(source: string) | TooLarge

  /** The first unacceptable key of a set, in the order of keys. */
  ghost predicate LeastBad(rules: Rules, labels: Labels, source: string) {
    && Bad(rules, labels, source)
    && forall k :: Bad(rules, labels, k) && k != source ==> Less(source, k)
  }

  ghost predicate FirstBad(rules: Rules, sets: seq<Labels>, source: string) {
    exists i: nat {:trigger sets[i]} :: i < |sets| && AllAcceptable(rules, sets[..i]) && LeastBad(rules, sets[i], source)
  }

  /** `podMetadata`: the merged Pod labels and annotations, or the first requested key, in whatever set,
      that is invalid or reserved. */
  method PodMetadata(rules: Rules, sets: seq<Labels>) returns (r: Result<(Labels, Labels), MetadataError>)
    ensures r.Success? <==> AllAcceptable(rules, sets) && rules.sizeOk(Merged(sets, POD_ANNOTATION))
    ensures r.Success? ==> r.value.0 == Merged(sets, POD_LABEL) && r.value.1 == Merged(sets, POD_ANNOTATION)
    ensures r.Success? ==> forall key :: key in r.value.0 ==> !Reserved(key)
    ensures r.Failure? ==> if AllAcceptable(rules, sets) then r.error == TooLarge
                           else r.error.BadKey? && FirstBad(rules, sets, r.error.source)
  {
    var labels, annotations: Labels := map[], map[];
    for i := 0 to |sets|
      invariant AllAcceptable(rules, sets[..i])
      invariant labels == Merged(sets[..i], POD_LABEL) && annotations == Merged(sets[..i], POD_ANNOTATION)
      invariant forall key :: key in labels ==> !Reserved(key)
    {
      MergedNext(sets, i, POD_LABEL);
      MergedNext(sets, i, POD_ANNOTATION);
      AcceptableNext(rules, sets, i);
      var bad;
      bad, labels, annotations := AddSet(rules, sets[i], labels, annotations);
      if bad.Some? {
        if AllAcceptable(rules, sets) { PrefixAcceptable(rules, sets, i + 1); }
        return Failure(BadKey(bad.value));
      }
    }
    assert sets[..|sets|] == sets;
    if !rules.sizeOk(annotations) { return Failure(TooLarge); }
    return Success((labels, annotations));
  }

  lemma AcceptableNext(rules: Rules, sets: seq<Labels>, i: nat)
    requires i < |sets|
    ensures AllAcceptable(rules, sets[..i + 1]) <==> AllAcceptable(rules, sets[..i]) && SetAcceptable(rules, sets[i])
  {
    assert sets[..i + 1][..i] == sets[..i];
  }

  method AddSet(rules: Rules, added: Labels, labels0: Labels, annotations0: Labels)
    returns (bad: Option<string>, labels: Labels, annotations: Labels)
    requires forall key :: key in labels0 ==> !Reserved(key)
    ensures if bad.None? then SetAcceptable(rules, added) else LeastBad(rules, added, bad.value)
    ensures bad.None? ==> labels == labels0 + Stripped(added, added.Keys, POD_LABEL)
    ensures bad.None? ==> annotations == annotations0 + Stripped(added, added.Keys, POD_ANNOTATION)
    ensures bad.None? ==> forall key :: key in labels ==> !Reserved(key)
  {
    labels, annotations := labels0, annotations0;
    var todo := added.Keys;
    ghost var done: set<string> := {};
    while todo != {}
      invariant todo + done == added.Keys && todo !! done
      invariant labels == labels0 + Stripped(added, done, POD_LABEL)
      invariant annotations == annotations0 + Stripped(added, done, POD_ANNOTATION)
      invariant forall key :: key in labels ==> !Reserved(key)
      invariant forall source :: source in done ==> Acceptable(rules, added, source)
      decreases todo
    {
      var source := Smallest(todo);
      if !Acceptable(rules, added, source) {
        LeastMeans(rules, added, source);
        return Some(source), labels, annotations;
      }
      StrippedNext(labels0, added, done, POD_LABEL, source);
      StrippedNext(annotations0, added, done, POD_ANNOTATION, source);
      PrefixesApart(source);
      if POD_LABEL <= source {
        labels := labels[source[|POD_LABEL|..] := added[source]];
      } else if POD_ANNOTATION <= source {
        annotations := annotations[source[|POD_ANNOTATION|..] := added[source]];
      }
      todo, done := todo - {source}, done + {source};
    }
    assert done == added.Keys;
    SetMeans(rules, added);
    bad := None;
  }

  lemma SetMeans(rules: Rules, labels: Labels)
    requires forall source :: source in labels ==> Acceptable(rules, labels, source)
    ensures SetAcceptable(rules, labels)
  {
    forall source | source in labels
      ensures !Bad(rules, labels, source)
    {
      AcceptableMeans(rules, labels, source);
    }
  }

  lemma LeastMeans(rules: Rules, labels: Labels, source: string)
    requires source in labels && !Acceptable(rules, labels, source)
    requires forall k :: k in labels && k != source ==> Acceptable(rules, labels, k) || Less(source, k)
    ensures LeastBad(rules, labels, source)
  {
    forall k | k in labels
      ensures Acceptable(rules, labels, k) <==> !Bad(rules, labels, k)
    {
      AcceptableMeans(rules, labels, k);
    }
  }

  lemma PrefixesApart(source: string)
    ensures !(POD_LABEL <= source && POD_ANNOTATION <= source)
  {
    assert POD_LABEL <= source ==> source[12] == 'l';
    assert POD_ANNOTATION <= source ==> source[12] == 'a';
  }

  // ----- policies

  datatype Port = Port(number: nat, protocol: string)

  /** A rule allows sources that match the selector, or any, on the listed ports, or all. */
  datatype Rule = Rule(from: Option<Labels>, ports: Option<set<Port>>)

  /** A policy for ingress to the Pods its selector matches. */
  datatype Policy = Policy(selector: Labels, rules: seq<Rule>)

  predicate Matches(selector: Labels, labels: Labels) {
    forall key :: key in selector ==> key in labels && labels[key] == selector[key]
  }

  predicate Admits(rule: Rule, source: Labels, port: Port) {
    (rule.from.None? || Matches(rule.from.value, source)) && (rule.ports.None? || port in rule.ports.value)
  }

  /** Kubernetes: a Pod that no policy selects accepts everything; one that is selected accepts what
      some rule of some policy selecting it admits. */
  ghost predicate IngressAllowed(policies: set<Policy>, target: Labels, source: Labels, port: Port) {
    (exists p :: p in policies && Matches(p.selector, target)) ==>
      exists p, rule :: p in policies && Matches(p.selector, target) && rule in p.rules && Admits(rule, source, port)
  }

  /** A container's Pod: the workload's object name, the Docker networks it is on, its published ports
      and the Pod labels its Docker labels asked for. */
  datatype Pod = Pod(app: string, networks: set<string>, published: seq<Port>, user: Labels)

  /** Docker networks and the object name each is stored under. */
  datatype Namespace = Namespace(networks: set<string>, objectName: string -> string, pods: set<Pod>)

  predicate HasPolicy(network: string) {
    network != "none" && network != "host"
  }

  function Membership(ns: Namespace, network: string): Labels {
    map[NETWORK_PREFIX + ns.objectName(network) := "true"]
  }

  function NetworkKeys(ns: Namespace, networks: set<string>): set<string> {
    set n | n in networks :: NETWORK_PREFIX + ns.objectName(n)
  }

  function NetworkLabels(ns: Namespace, networks: set<string>): Labels {
    map key | key in NetworkKeys(ns, networks) :: "true"
  }

  /** User labels are copied last, over Dink's own. */
  function PodLabels(ns: Namespace, pod: Pod): Labels {
    map[APP := pod.app, MANAGED_BY := DINK] + NetworkLabels(ns, pod.networks) + pod.user
  }

  function IsolationPolicy(): Policy {
    Policy(map[MANAGED_BY := DINK], [])
  }

  function NetworkPolicy(ns: Namespace, network: string): Policy {
    Policy(Membership(ns, network), [Rule(Some(Membership(ns, network)), None)])
  }

  /** A port without a protocol is a TCP port. */
  function PolicyPort(port: Port): Port {
    if port.protocol == "" then port.(protocol := "TCP") else port
  }

  function PublishedPolicy(app: string, ports: seq<Port>): Policy {
    Policy(map[APP := app], [Rule(None, Some(set p | p in ports :: PolicyPort(p)))])
  }

  ghost function Policies(ns: Namespace): set<Policy> {
    {IsolationPolicy()}
    + (set n | n in ns.networks && HasPolicy(n) :: NetworkPolicy(ns, n))
    + (set pod | pod in ns.pods && pod.published != [] :: PublishedPolicy(pod.app, pod.published))
  }

  /** Object names do not collide, networks in use exist, and user labels passed `podMetadata`. */
  ghost predicate NamespaceOk(ns: Namespace) {
    && (forall a, b :: a in ns.networks && b in ns.networks && ns.objectName(a) == ns.objectName(b) ==> a == b)
    && (forall p, q :: p in ns.pods && q in ns.pods && p.app == q.app ==> p == q)
    && (forall p :: p in ns.pods ==> p.networks <= ns.networks && forall key :: key in p.user ==> !Reserved(key))
  }

  lemma DomainOf(prefix: string, rest: string)
    requires '/' !in prefix
    ensures Domain(prefix + "/" + rest) == Some(prefix)
  {
    var key := prefix + "/" + rest;
    if prefix != [] {
      assert key[1..] == prefix[1..] + "/" + rest;
      DomainOf(prefix[1..], rest);
      assert key[0] == prefix[0] && [prefix[0]] + prefix[1..] == prefix;
    }
  }

  lemma NetworkKey(name: string)
    ensures Reserved(NETWORK_PREFIX + name) && NETWORK_PREFIX + name != APP && NETWORK_PREFIX + name != MANAGED_BY
  {
    DomainOf("dink.io", "network-" + name);
    assert NETWORK_PREFIX + name == "dink.io" + "/" + ("network-" + name);
    assert (NETWORK_PREFIX + name)[0] == 'd';
  }

  /** The labels that policies look at are exactly Dink's own, whatever the user asked for. */
  lemma OwnLabels(ns: Namespace, pod: Pod)
    requires NamespaceOk(ns) && pod in ns.pods
    ensures var labels := PodLabels(ns, pod);
            && APP in labels && labels[APP] == pod.app && MANAGED_BY in labels && labels[MANAGED_BY] == DINK
  {
    assert Reserved(APP) && Reserved(MANAGED_BY);
    forall n | n in pod.networks
      ensures NETWORK_PREFIX + ns.objectName(n) != APP && NETWORK_PREFIX + ns.objectName(n) != MANAGED_BY
    {
      NetworkKey(ns.objectName(n));
    }
    assert APP !in NetworkLabels(ns, pod.networks) && MANAGED_BY !in NetworkLabels(ns, pod.networks);
  }

  lemma OwnMembership(ns: Namespace, pod: Pod, network: string)
    requires NamespaceOk(ns) && pod in ns.pods && network in ns.networks
    ensures Matches(Membership(ns, network), PodLabels(ns, pod)) <==> network in pod.networks
  {
    var key := NETWORK_PREFIX + ns.objectName(network);
    NetworkKey(ns.objectName(network));
    assert key in PodLabels(ns, pod) <==> key in NetworkKeys(ns, pod.networks);
    if key in NetworkKeys(ns, pod.networks) {
      var n :| n in pod.networks && key == NETWORK_PREFIX + ns.objectName(n);
      SamePrefix(NETWORK_PREFIX, ns.objectName(n), ns.objectName(network));
      assert PodLabels(ns, pod)[key] == "true";
    }
  }

  lemma SamePrefix(p: string, a: string, b: string)
    requires p + a == p + b
    ensures a == b
  {
    assert (p + a)[|p|..] == a && (p + b)[|p|..] == b;
  }

  ghost predicate ShareNetwork(target: Pod, source: Pod) {
    exists n :: n in target.networks && n in source.networks && n != "none" && n != "host"
  }

  ghost predicate Publishes(target: Pod, port: Port) {
    exists p :: p in target.published && p.number == port.number && port.protocol == if p.protocol == "" then "TCP" else p.protocol
  }

  lemma SharedIsAllowed(ns: Namespace, target: Pod, source: Pod, port: Port)
    requires NamespaceOk(ns) && target in ns.pods && source in ns.pods && ShareNetwork(target, source)
    ensures IngressAllowed(Policies(ns), PodLabels(ns, target), PodLabels(ns, source), port)
  {
    var n :| n in target.networks && n in source.networks && n != "none" && n != "host";
    OwnMembership(ns, target, n);
    OwnMembership(ns, source, n);
    var policy := NetworkPolicy(ns, n);
    assert policy in Policies(ns) && policy.rules[0] in policy.rules && Admits(policy.rules[0], PodLabels(ns, source), port);
  }

  lemma PublishedIsAllowed(ns: Namespace, target: Pod, source: Pod, port: Port)
    requires NamespaceOk(ns) && target in ns.pods && source in ns.pods && Publishes(target, port)
    ensures IngressAllowed(Policies(ns), PodLabels(ns, target), PodLabels(ns, source), port)
  {
    OwnLabels(ns, target);
    var policy := PublishedPolicy(target.app, target.published);
    var rule := policy.rules[0];
    PublishedOpens(target, PodLabels(ns, source), port);
    assert policy in Policies(ns) && rule in policy.rules && Matches(policy.selector, PodLabels(ns, target));
  }

  lemma PublishedOpens(target: Pod, source: Labels, port: Port)
    requires Publishes(target, port)
    ensures target.published != [] && Admits(PublishedPolicy(target.app, target.published).rules[0], source, port)
  {
    var p :| p in target.published && p.number == port.number && port.protocol == if p.protocol == "" then "TCP" else p.protocol;
    assert PolicyPort(p) == port;
  }

  /** An allowed connection to an isolated Pod is admitted by a network's policy or a workload's. */
  lemma AdmittingPolicy(ns: Namespace, target: Labels, source: Labels, port: Port)
    requires IngressAllowed(Policies(ns), target, source, port) && Matches(IsolationPolicy().selector, target)
    ensures || (exists n :: n in ns.networks && HasPolicy(n) && Matches(Membership(ns, n), target) && Matches(Membership(ns, n), source))
            || (exists pod :: pod in ns.pods && Matches(map[APP := pod.app], target) &&
                              port in (set p | p in pod.published :: PolicyPort(p)))
  {
  }

  lemma AllowedHasReason(ns: Namespace, target: Pod, source: Pod, port: Port)
    requires NamespaceOk(ns) && target in ns.pods && source in ns.pods
    requires IngressAllowed(Policies(ns), PodLabels(ns, target), PodLabels(ns, source), port)
    ensures ShareNetwork(target, source) || Publishes(target, port)
  {
    var t, s := PodLabels(ns, target), PodLabels(ns, source);
    OwnLabels(ns, target);
    AdmittingPolicy(ns, t, s, port);
    if n :| n in ns.networks && HasPolicy(n) && Matches(Membership(ns, n), t) && Matches(Membership(ns, n), s) {
      AdmittedByNetwork(ns, target, source, n);
    } else {
      var pod :| pod in ns.pods && Matches(map[APP := pod.app], t) && port in (set p | p in pod.published :: PolicyPort(p));
      AdmittedByPort(ns, target, pod, port);
    }
  }

  lemma AdmittedByNetwork(ns: Namespace, target: Pod, source: Pod, n: string)
    requires NamespaceOk(ns) && target in ns.pods && source in ns.pods && n in ns.networks && HasPolicy(n)
    requires Matches(Membership(ns, n), PodLabels(ns, target)) && Matches(Membership(ns, n), PodLabels(ns, source))
    ensures ShareNetwork(target, source)
  {
    OwnMembership(ns, target, n);
    OwnMembership(ns, source, n);
  }

  lemma AdmittedByPort(ns: Namespace, target: Pod, pod: Pod, port: Port)
    requires NamespaceOk(ns) && target in ns.pods && pod in ns.pods
    requires Matches(map[APP := pod.app], PodLabels(ns, target)) && port in (set p | p in pod.published :: PolicyPort(p))
    ensures Publishes(target, port)
  {
    OwnLabels(ns, target);
    assert APP in map[APP := pod.app] && pod.app == target.app;
  }

  /** The policies are the Docker networks: a Pod may reach another one on a port exactly when they
      share a network other than `none` and `host`, or the target publishes the port. No accepted user
      label changes that. */
  lemma PoliciesAreNetworks(ns: Namespace, target: Pod, source: Pod, port: Port)
    requires NamespaceOk(ns) && target in ns.pods && source in ns.pods
    ensures IngressAllowed(Policies(ns), PodLabels(ns, target), PodLabels(ns, source), port) <==>
            ShareNetwork(target, source) || Publishes(target, port)
  {
    if ShareNetwork(target, source) {
      SharedIsAllowed(ns, target, source, port);
    } else if Publishes(target, port) {
      PublishedIsAllowed(ns, target, source, port);
    } else if IngressAllowed(Policies(ns), PodLabels(ns, target), PodLabels(ns, source), port) {
      AllowedHasReason(ns, target, source, port);
    }
  }
}
