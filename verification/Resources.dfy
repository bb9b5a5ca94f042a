/** Docker CPU and memory settings as Kubernetes quantities, the defaults of a tenant, and the way back
    when a container is inspected. */
module Resources {
  import opened Common

  const MAX_INT64 := 0x7FFF_FFFF_FFFF_FFFF

  type int64 = x: int | -MAX_INT64 - 1 <= x <= MAX_INT64

  /** A Kubernetes quantity, which is exact to one billionth. */
  datatype Quantity = Quantity(nanos: int) {
    /** Both conversions round up. */
    function MilliValue(): int { Ceiling(nanos, 1_000_000) }
    function Value(): int { Ceiling(nanos, 1_000_000_000) }
  }

  function Ceiling(a: int, b: int): int
    requires b > 0
  {
    -((-a) / b)
  }

  /** The least whole number of units that is not below the quantity. */
  lemma CeilingMeans(a: int, b: int, c: int)
    requires b > 0
    ensures Ceiling(a, b) == c <==> (c - 1) * b < a <= c * b
  {
    var q := Ceiling(a, b);
    assert (q - 1) * b < a <= q * b by {
      assert -a == -q * b + (-a) % b;
    }
    if (c - 1) * b < a <= c * b && q != c {
      if q < c { Product(q, c - 1, b); } else { Product(c, q - 1, b); }
    }
  }

  lemma Product(x: int, y: int, b: int)
    requires x <= y && b > 0
    ensures x * b <= y * b
  {
  }

  function Milli(m: int): Quantity { Quantity(m * 1_000_000) }
  function Whole(v: int): Quantity { Quantity(v * 1_000_000_000) }

  datatype Resource = Cpu | Memory

  type List = map<Resource, Quantity>

  datatype Requirements = Requirements(limits: List, requests: List)

  const CPU_REQUEST := "dink.io/requests.cpu"

  /** The resource settings of a container. `unsupported` is set when any other one is in use. */
  datatype HostConfig = HostConfig(memory: int64, memoryReservation: int64, nanoCpus: int64, cpuQuota: int64,
                                   cpuPeriod: int64, annotations: map<string, string>, unsupported: bool)

  const EMPTY := HostConfig(0, 0, 0, 0, 0, map[], false)

  function EffectivePeriod(h: HostConfig): int {
    if h.cpuPeriod == 0 then 100_000 else h.cpuPeriod
  }

  predicate Accepted(h: HostConfig) {
    && h.memory >= 0 && h.memoryReservation >= 0 && h.nanoCpus >= 0 && h.cpuQuota >= -1 && h.cpuPeriod >= 0
    && !(h.memory > 0 && h.memoryReservation > h.memory)
    && !(h.nanoCpus > 0 && h.cpuQuota > 0)
    && (h.nanoCpus > 0 ==> h.nanoCpus % 1_000_000 == 0)
    && (if h.cpuQuota > 0 then h.cpuQuota <= MAX_INT64 / 1000 && EffectivePeriod(h) > 0 && (h.cpuQuota * 1000) % EffectivePeriod(h) == 0
        else h.cpuPeriod == 0)
    && !h.unsupported
  }

  /** `containerResources`. */
  function ContainerResources(h: HostConfig): Option<Requirements> {
    if !Accepted(h) then None
    else
      var memoryLimit: List := if h.memory > 0 then map[Memory := Whole(h.memory)] else map[];
      var cpuLimit: List :=
        if h.nanoCpus > 0 then map[Cpu := Milli(h.nanoCpus / 1_000_000)]
        else if h.cpuQuota > 0 then map[Cpu := Milli(h.cpuQuota * 1000 / EffectivePeriod(h))]
        else map[];
      var requests: List := if h.memoryReservation > 0 then map[Memory := Whole(h.memoryReservation)] else map[];
      Some(Requirements(memoryLimit + cpuLimit, requests))
  }

  /** Settings are accepted if and only if no value is negative but a quota of -1, the reservation is
      within the limit, at most one way of limiting the CPU is used and comes to whole millicores
      within 64 bits, a period stands beside a quota, and nothing else is set. */
  lemma AcceptedMeans(h: HostConfig)
    ensures ContainerResources(h).Some? <==>
            && h.memory >= 0 && h.memoryReservation >= 0 && (h.memory == 0 || h.memoryReservation <= h.memory)
            && h.nanoCpus >= 0 && h.cpuQuota >= -1 && h.cpuPeriod >= 0 && (h.nanoCpus == 0 || h.cpuQuota <= 0)
            && (exists m: int :: Millicores(h.nanoCpus, m))
            && (if h.cpuQuota > 0 then exists m: int :: QuotaMillicores(h, m) else h.cpuPeriod == 0)
            && !h.unsupported
  {
    if h.nanoCpus % 1_000_000 == 0 { assert Millicores(h.nanoCpus, h.nanoCpus / 1_000_000); }
    if h.cpuPeriod >= 0 {
      if m: int :| QuotaMillicores(h, m) { Multiple(m, EffectivePeriod(h)); }
    }
    if h.cpuQuota > 0 && Accepted(h) {
      var m := h.cpuQuota * 1000 / EffectivePeriod(h);
      assert h.cpuQuota * 1000 == EffectivePeriod(h) * m + h.cpuQuota * 1000 % EffectivePeriod(h);
      assert QuotaMillicores(h, m);
    }
  }

  ghost predicate Millicores(nanos: int, m: int) {
    nanos == m * 1_000_000
  }

  /** Over its period, or 100 ms if none is given, the quota is `m` thousandths of a core. */
  ghost predicate QuotaMillicores(h: HostConfig, m: int) {
    m * (if h.cpuPeriod > 0 then h.cpuPeriod else 100_000) == 1000 * h.cpuQuota <= MAX_INT64
  }

  lemma Multiple(m: int, period: int)
    requires period > 0
    ensures m * period % period == 0
  {
    var q := m * period / period;
    assert m * period == q * period + m * period % period;
    assert (m - q) * period == m * period % period;
    if m - q >= 1 { Product(1, m - q, period); }
    if m - q <= -1 { Product(m - q, -1, period); }
  }

  /** What accepted settings come to: memory in bytes and NanoCPUs exactly, and a quota as a whole number
      of millicores with nothing rounded and no product beyond 64 bits. */
  lemma SettingsAreExact(h: HostConfig)
    requires ContainerResources(h).Some?
    ensures var r := ContainerResources(h).value;
            && (Memory in r.limits <==> h.memory > 0) && (h.memory > 0 ==> r.limits[Memory].Value() == h.memory)
            && (Memory in r.requests <==> h.memoryReservation > 0)
            && (h.memoryReservation > 0 ==> r.requests[Memory].Value() == h.memoryReservation)
            && (Cpu in r.limits <==> h.nanoCpus > 0 || h.cpuQuota > 0) && Cpu !in r.requests && WithinLimits(r)
            && (h.nanoCpus > 0 ==> r.limits[Cpu].nanos == h.nanoCpus)
            && (h.cpuQuota > 0 ==> r.limits[Cpu].MilliValue() * EffectivePeriod(h) == 1000 * h.cpuQuota <= MAX_INT64)
  {
    WholeExact(h.memory);
    WholeExact(h.memoryReservation);
    if h.cpuQuota > 0 {
      var period := EffectivePeriod(h);
      var m := h.cpuQuota * 1000 / period;
      assert h.cpuQuota * 1000 == period * m + h.cpuQuota * 1000 % period;
      MilliExact(m);
    }
  }

  lemma MilliExact(m: int)
    ensures Milli(m).MilliValue() == m
  {
  }

  lemma WholeExact(v: int)
    ensures Whole(v).Value() == v
  {
  }

  // ----- defaults

  /** Default quantities as written; an empty text means no default. */
  datatype Defaults = Defaults(limitCpu: string, limitMemory: string, requestCpu: string, requestMemory: string) {
    function Limit(k: Resource): string { if k == Cpu then limitCpu else limitMemory }
    function Request(k: Resource): string { if k == Cpu then requestCpu else requestMemory }
  }

  /** Reading and writing quantities as text are parameters. */
  datatype Syntax = Syntax(parse: string -> Option<Quantity>, show: Quantity -> string)

  predicate FitsCpu(q: Quantity) {
    q.nanos > 0 && q.nanos <= Milli(MAX_INT64 / 1_000_000).nanos && q.nanos == Milli(q.MilliValue()).nanos
  }

  predicate FitsMemory(q: Quantity) {
    q.nanos > 0 && q.nanos <= Whole(MAX_INT64).nanos && q.nanos == Whole(q.Value()).nanos
  }

  predicate EntryOk(syntax: Syntax, text: string, resource: Resource) {
    text != "" ==>
      syntax.parse(text).Some? &&
      if resource == Cpu then FitsCpu(syntax.parse(text).value) else FitsMemory(syntax.parse(text).value)
  }

  predicate PairOk(syntax: Syntax, request: string, limit: string) {
    request != "" && limit != "" && syntax.parse(request).Some? && syntax.parse(limit).Some? ==>
      syntax.parse(request).value.nanos <= syntax.parse(limit).value.nanos
  }

  /** A quantity fits Docker's NanoCPUs if and only if it is a positive, whole number of millicores whose
      NanoCPUs are a 64-bit number; and a quantity in nanocores is those NanoCPUs. */
  lemma FitsCpuMeans(q: Quantity)
    ensures FitsCpu(q) <==> exists m: int :: m > 0 && q == Milli(m) && m * 1_000_000 <= MAX_INT64
    ensures FitsCpu(q) ==> q.MilliValue() * 1_000_000 == q.nanos <= MAX_INT64
  {
    if m: int :| m > 0 && q == Milli(m) && m * 1_000_000 <= MAX_INT64 { MilliExact(m); }
    if FitsCpu(q) { assert q == Milli(q.MilliValue()) && q.MilliValue() > 0; }
  }

  /** A quantity fits Docker's memory if and only if it is a positive 64-bit number of whole bytes. */
  lemma FitsMemoryMeans(q: Quantity)
    ensures FitsMemory(q) <==> exists v: int :: 0 < v <= MAX_INT64 && q == Whole(v)
    ensures FitsMemory(q) ==> q == Whole(q.Value()) && 0 < q.Value() <= MAX_INT64
  {
    if v: int :| 0 < v <= MAX_INT64 && q == Whole(v) { WholeExact(v); }
    if FitsMemory(q) { assert q == Whole(q.Value()); }
  }

  /** `ResourceDefaults.Validate`: its two loops collect errors; it succeeds if they found none. */
  method Validate(syntax: Syntax, d: Defaults) returns (ok: bool)
    ensures ok <==> Valid(syntax, d)
  {
    var entries := [(d.limitCpu, Cpu), (d.limitMemory, Memory), (d.requestCpu, Cpu), (d.requestMemory, Memory)];
    var errors := 0;
    for i := 0 to |entries|
      invariant errors >= 0 && (errors == 0 <==> forall k :: 0 <= k < i ==> EntryOk(syntax, entries[k].0, entries[k].1))
    {
      if !EntryOk(syntax, entries[i].0, entries[i].1) { errors := errors + 1; }
    }
    assert errors == 0 <==> EntryOk(syntax, entries[0].0, entries[0].1) && EntryOk(syntax, entries[1].0, entries[1].1) &&
                            EntryOk(syntax, entries[2].0, entries[2].1) && EntryOk(syntax, entries[3].0, entries[3].1);
    var pairs := [(d.requestCpu, d.limitCpu), (d.requestMemory, d.limitMemory)];
    for i := 0 to |pairs|
      invariant errors >= 0 && (errors == 0 <==> EntriesOk(syntax, d) && forall k :: 0 <= k < i ==> PairOk(syntax, pairs[k].0, pairs[k].1))
    {
      if !PairOk(syntax, pairs[i].0, pairs[i].1) { errors := errors + 1; }
    }
    assert errors == 0 <==> EntriesOk(syntax, d) && PairOk(syntax, pairs[0].0, pairs[0].1) && PairOk(syntax, pairs[1].0, pairs[1].1);
    return errors == 0;
  }

  predicate EntriesOk(syntax: Syntax, d: Defaults) {
    && EntryOk(syntax, d.limitCpu, Cpu) && EntryOk(syntax, d.limitMemory, Memory)
    && EntryOk(syntax, d.requestCpu, Cpu) && EntryOk(syntax, d.requestMemory, Memory)
  }

  predicate Valid(syntax: Syntax, d: Defaults) {
    && EntriesOk(syntax, d)
    && PairOk(syntax, d.requestCpu, d.limitCpu) && PairOk(syntax, d.requestMemory, d.limitMemory)
  }

  /** The request stays within the limit for every resource that has both. */
  ghost predicate WithinLimits(r: Requirements) {
    forall k :: k in r.requests && k in r.limits ==> r.requests[k].nanos <= r.limits[k].nanos
  }

  /** The settings say what the requirements say: the same limits and the same memory request. */
  ghost predicate Describes(h: HostConfig, r: Requirements) {
    && Accepted(h)
    && (h.memory > 0 <==> Memory in r.limits) && (h.memory > 0 ==> r.limits[Memory] == Whole(h.memory))
    && (h.memoryReservation > 0 <==> Memory in r.requests) && (h.memoryReservation > 0 ==> r.requests[Memory] == Whole(h.memoryReservation))
    && (h.nanoCpus > 0 || h.cpuQuota > 0 <==> Cpu in r.limits)
    && (h.nanoCpus > 0 ==> r.limits[Cpu] == Milli(h.nanoCpus / 1_000_000))
    && (h.nanoCpus == 0 && h.cpuQuota > 0 ==> r.limits[Cpu] == Milli(h.cpuQuota * 1000 / EffectivePeriod(h)))
  }

  lemma DescribesMeaning(h: HostConfig, r: Requirements)
    requires Describes(h, r)
    ensures ContainerResources(h).Some?
    ensures ContainerResources(h).value.limits == r.limits
    ensures ContainerResources(h).value.requests == r.requests - {Cpu}
  {
    var c := ContainerResources(h).value;
    forall k: Resource
      ensures k in c.limits <==> k in r.limits
      ensures k in c.requests <==> k in r.requests - {Cpu}
    {
      match k
      case Cpu =>
      case Memory =>
    }
  }

  /** When the user's reservation exceeds a memory limit that only the default imposes. */
  predicate ReservationTooBig(syntax: Syntax, h: HostConfig, d: Defaults) {
    h.memoryReservation > 0 && h.memory == 0 && d.limitMemory != "" && syntax.parse(d.limitMemory).Some? &&
    Whole(h.memoryReservation).nanos > syntax.parse(d.limitMemory).value.nanos
  }

  /** A declared limit stands; otherwise the default, if there is one, applies. */
  ghost predicate LimitsDefaulted(syntax: Syntax, declared: Requirements, d: Defaults, r: Requirements) {
    && (forall k :: k in r.limits <==> k in declared.limits || d.Limit(k) != "")
    && (forall k :: k in r.limits ==> if k in declared.limits then r.limits[k] == declared.limits[k]
                                      else Some(r.limits[k]) == syntax.parse(d.Limit(k)))
  }

  /** A declared request stands; otherwise the default, if there is one, applies up to the limit. */
  ghost predicate RequestsDefaulted(syntax: Syntax, declared: Requirements, d: Defaults, r: Requirements) {
    && (forall k :: k in r.requests <==> k in declared.requests || d.Request(k) != "")
    && (forall k :: k in r.requests ==>
          if k in declared.requests then r.requests[k] == declared.requests[k]
          else syntax.parse(d.Request(k)).Some? && Smaller(r.requests[k], syntax.parse(d.Request(k)).value, r.limits, k))
  }

  /** The smaller of the quantity and the limit, if there is one. */
  ghost predicate Smaller(x: Quantity, q: Quantity, limits: List, k: Resource) {
    if k !in limits then x == q
    else (x == q || x == limits[k]) && x.nanos <= q.nanos && x.nanos <= limits[k].nanos
  }

  /** `applyResourceDefaults`, with validated defaults. It refuses exactly a reservation above the
      default limit. Otherwise requests are within limits, no product leaves 64 bits, the stored
      settings describe the effective limits and memory request, and only the annotation records the
      CPU request. */
  method ApplyResourceDefaults(syntax: Syntax, given: HostConfig, declared: Requirements, d: Defaults)
    returns (ok: bool, h: HostConfig, r: Requirements)
    requires Valid(syntax, d) && ContainerResources(given) == Some(declared)
    ensures ok <==> !ReservationTooBig(syntax, given, d)
    ensures ok ==> WithinLimits(r) && Describes(h, r)
    ensures ok ==> h.cpuQuota == given.cpuQuota && h.cpuPeriod == given.cpuPeriod
    ensures ok ==> LimitsDefaulted(syntax, declared, d, r) && RequestsDefaulted(syntax, declared, d, r)
    ensures ok ==> h.annotations == if Cpu in r.requests then given.annotations[CPU_REQUEST := syntax.show(r.requests[Cpu])]
                                    else given.annotations
  {
    DeclaredDescribes(given, declared);
    h, r := DefaultLimits(syntax, given, declared, d);
    h, r := DefaultRequests(syntax, h, r, d);
    TooBigExactly(syntax, given, declared, d, r);
    ok := CheckRequests(r);
    if !ok { return; }
    DescribedWithin(h, r);
    if Cpu in r.requests { h := h.(annotations := h.annotations[CPU_REQUEST := syntax.show(r.requests[Cpu])]); }
  }

  /** The loop that refuses a request above its limit. */
  method CheckRequests(r: Requirements) returns (ok: bool)
    ensures ok <==> WithinLimits(r)
  {
    var todo := r.requests.Keys;
    while todo != {}
      invariant todo <= r.requests.Keys
      invariant forall k :: k in r.requests.Keys - todo && k in r.limits ==> r.requests[k].nanos <= r.limits[k].nanos
      decreases todo
    {
      var k :| k in todo;
      if k in r.limits && r.requests[k].nanos > r.limits[k].nanos { return false; }
      todo := todo - {k};
    }
    return true;
  }

  lemma DescribedWithin(h: HostConfig, r: Requirements)
    requires Described(h, r) && WithinLimits(r)
    ensures Describes(h, r) && forall a: map<string, string> :: Describes(h.(annotations := a), r)
  {
  }

  lemma DeclaredDescribes(h: HostConfig, r: Requirements)
    requires ContainerResources(h) == Some(r)
    ensures Described(h, r) && Cpu !in r.requests && WithinLimits(r)
  {
  }

  /** Only a reservation the user made can exceed a limit, and only one that a default set. */
  lemma TooBigExactly(syntax: Syntax, given: HostConfig, declared: Requirements, d: Defaults, r: Requirements)
    requires Valid(syntax, d) && ContainerResources(given) == Some(declared)
    requires LimitsDefaulted(syntax, declared, d, r) && RequestsDefaulted(syntax, declared, d, r)
    ensures WithinLimits(r) <==> !ReservationTooBig(syntax, given, d)
  {
    if ReservationTooBig(syntax, given, d) {
      assert Memory in r.requests && Memory in r.limits && r.requests[Memory].nanos > r.limits[Memory].nanos;
    } else {
      forall k | k in r.requests && k in r.limits
        ensures r.requests[k].nanos <= r.limits[k].nanos
      {
        match k
        case Cpu =>
        case Memory =>
      }
    }
  }

  /** The second loop. */
  method DefaultRequests(syntax: Syntax, given: HostConfig, declared: Requirements, d: Defaults) returns (h: HostConfig, r: Requirements)
    requires Valid(syntax, d) && Described(given, declared) && Cpu !in declared.requests
    ensures Described(h, r) && h == given.(memoryReservation := h.memoryReservation) && r == declared.(requests := r.requests)
    ensures RequestsDefaulted(syntax, declared, d, r)
  {
    h, r := given, declared;
    if Cpu !in r.requests && d.requestCpu != "" {
      r := r.(requests := r.requests[Cpu := Clamp(syntax.parse(d.requestCpu).value, r.limits, Cpu)]);
    }
    if Memory !in r.requests && d.requestMemory != "" {
      var q := Clamp(syntax.parse(d.requestMemory).value, r.limits, Memory);
      WholeClamp(syntax.parse(d.requestMemory).value, h, r.limits);
      r := r.(requests := r.requests[Memory := q]);
      h := h.(memoryReservation := q.Value());
    }
  }

  /** The first loop. */
  method DefaultLimits(syntax: Syntax, given: HostConfig, declared: Requirements, d: Defaults) returns (h: HostConfig, r: Requirements)
    requires Valid(syntax, d) && Described(given, declared)
    ensures Described(h, r) && h == given.(nanoCpus := h.nanoCpus, memory := h.memory) && r == declared.(limits := r.limits)
    ensures LimitsDefaulted(syntax, declared, d, r)
  {
    h, r := DefaultCpuLimit(syntax, given, declared, d);
    h, r := DefaultMemoryLimit(syntax, h, r, d);
  }

  method DefaultCpuLimit(syntax: Syntax, given: HostConfig, declared: Requirements, d: Defaults) returns (h: HostConfig, r: Requirements)
    requires Valid(syntax, d) && Described(given, declared)
    ensures Described(h, r) && h == given.(nanoCpus := h.nanoCpus) && r == declared.(limits := r.limits)
    ensures r.limits == if Cpu in declared.limits || d.limitCpu == "" then declared.limits
                        else declared.limits[Cpu := syntax.parse(d.limitCpu).value]
  {
    h, r := given, declared;
    if Cpu !in r.limits && d.limitCpu != "" {
      var q := syntax.parse(d.limitCpu).value;
      r := r.(limits := r.limits[Cpu := q]);
      h := h.(nanoCpus := q.MilliValue() * 1_000_000);
    }
  }

  /** The settings describe the requirements, except that a reservation may exceed a default limit. */
  ghost predicate Described(h: HostConfig, r: Requirements) {
    Describes(h.(memoryReservation := 0), r.(requests := map[])) && h.memoryReservation >= 0 &&
    (h.memoryReservation > 0 <==> Memory in r.requests) && (h.memoryReservation > 0 ==> r.requests[Memory] == Whole(h.memoryReservation))
  }

  method DefaultMemoryLimit(syntax: Syntax, given: HostConfig, declared: Requirements, d: Defaults) returns (h: HostConfig, r: Requirements)
    requires Valid(syntax, d) && Described(given, declared)
    ensures Described(h, r) && h == given.(memory := h.memory) && r == declared.(limits := r.limits)
    ensures r.limits == if Memory in declared.limits || d.limitMemory == "" then declared.limits
                        else declared.limits[Memory := syntax.parse(d.limitMemory).value]
  {
    h, r := given, declared;
    if Memory !in r.limits && d.limitMemory != "" {
      var q := syntax.parse(d.limitMemory).value;
      r := r.(limits := r.limits[Memory := q]);
      h := h.(memory := q.Value());
    }
  }

  function Clamp(q: Quantity, limits: List, k: Resource): Quantity {
    if k in limits && q.nanos > limits[k].nanos then limits[k] else q
  }

  lemma WholeClamp(q: Quantity, h: HostConfig, limits: List)
    requires FitsMemory(q) && 0 <= h.memory && (h.memory > 0 <==> Memory in limits) && (h.memory > 0 ==> limits[Memory] == Whole(h.memory))
    ensures FitsMemory(Clamp(q, limits, Memory)) && 0 < Clamp(q, limits, Memory).Value() <= MAX_INT64
  {
  }

  // ----- inspection

  /** `reconcileInspectResources`: the stored settings, corrected by what the Pod really has. */
  function Reconciled(syntax: Syntax, h: HostConfig, actual: Requirements): Option<HostConfig> {
    var declared := ContainerResources(h);
    var sameCpu := declared.None? ||
      ((Cpu in declared.value.limits <==> Cpu in actual.limits) &&
       (Cpu in actual.limits ==> declared.value.limits[Cpu] == actual.limits[Cpu]));
    var nano := if sameCpu then h.nanoCpus else if Cpu in actual.limits then actual.limits[Cpu].MilliValue() * 1_000_000 else 0;
    var memory := if Memory in actual.limits then actual.limits[Memory].Value() else 0;
    var reservation := if Memory in actual.requests then actual.requests[Memory].Value() else 0;
    if -MAX_INT64 - 1 <= nano <= MAX_INT64 && -MAX_INT64 - 1 <= memory <= MAX_INT64 && -MAX_INT64 - 1 <= reservation <= MAX_INT64 then
      Some(HostConfig(memory, reservation, nano, if sameCpu then h.cpuQuota else 0, if sameCpu then h.cpuPeriod else 0,
                      if Cpu in actual.requests then h.annotations[CPU_REQUEST := syntax.show(actual.requests[Cpu])]
                      else h.annotations - {CPU_REQUEST},
                      h.unsupported))
    else None
  }

  /** Quantities that Docker's settings can express. */
  ghost predicate Expressible(r: Requirements) {
    && (Cpu in r.limits ==> FitsCpu(r.limits[Cpu])) && (Memory in r.limits ==> FitsMemory(r.limits[Memory]))
    && (Memory in r.requests ==> FitsMemory(r.requests[Memory]))
    && (Memory in r.requests && Memory in r.limits ==> r.requests[Memory].nanos <= r.limits[Memory].nanos)
  }

  ghost predicate SameCpu(h: HostConfig, actual: Requirements) {
    var declared := ContainerResources(h);
    declared.Some? && if Cpu in actual.limits then Cpu in declared.value.limits && declared.value.limits[Cpu] == actual.limits[Cpu]
                      else Cpu !in declared.value.limits
  }

  /** Whatever settings a container was created with, and however its Pod has been changed since,
      inspection tells what the Pod has: settings that mean the Pod's limits and memory request, with
      the Pod's CPU request in the annotation and every other annotation as stored. The way the CPU
      limit was written stays if the limit is still the same. Inspecting again changes nothing. */
  lemma InspectTells(syntax: Syntax, h: HostConfig, actual: Requirements)
    requires ContainerResources(h).Some? && Expressible(actual)
    ensures Reconciled(syntax, h, actual).Some?
    ensures var told := Reconciled(syntax, h, actual).value;
            && Describes(told, actual) && Reconciled(syntax, told, actual) == Some(told)
            && (CPU_REQUEST in told.annotations <==> Cpu in actual.requests)
            && (Cpu in actual.requests ==> told.annotations[CPU_REQUEST] == syntax.show(actual.requests[Cpu]))
            && told.annotations - {CPU_REQUEST} == h.annotations - {CPU_REQUEST}
            && (SameCpu(h, actual) ==> told.nanoCpus == h.nanoCpus && told.cpuQuota == h.cpuQuota && told.cpuPeriod == h.cpuPeriod)
            && (!SameCpu(h, actual) ==> told.cpuQuota == 0 && told.cpuPeriod == 0)
  {
    InspectDescribes(syntax, h, actual);
    var told := Reconciled(syntax, h, actual).value;
    assert told.annotations - {CPU_REQUEST} == h.annotations - {CPU_REQUEST};
    InspectIsFixedPoint(syntax, told, actual);
  }

  lemma InspectDescribes(syntax: Syntax, h: HostConfig, actual: Requirements)
    requires ContainerResources(h).Some? && Expressible(actual)
    ensures Reconciled(syntax, h, actual).Some? && Describes(Reconciled(syntax, h, actual).value, actual)
  {
    if Memory in actual.limits { FitsMemoryMeans(actual.limits[Memory]); }
    if Memory in actual.requests { FitsMemoryMeans(actual.requests[Memory]); }
    if Cpu in actual.limits { FitsCpuMeans(actual.limits[Cpu]); }
    DeclaredDescribes(h, ContainerResources(h).value);
  }

  /** Inspecting a container created with defaults shows the stored settings unchanged if and only if it
      has a CPU request or the user did not claim the annotation that records one. */
  lemma InspectIsFixedPoint(syntax: Syntax, h: HostConfig, r: Requirements)
    requires Describes(h, r)
    requires Cpu in r.requests ==> CPU_REQUEST in h.annotations && h.annotations[CPU_REQUEST] == syntax.show(r.requests[Cpu])
    ensures Reconciled(syntax, h, r) == Some(h) <==> Cpu in r.requests || CPU_REQUEST !in h.annotations
    ensures Reconciled(syntax, h, r).Some? && Reconciled(syntax, h, r).value.(annotations := h.annotations) == h
  {
    DescribesMeaning(h, r);
    WholeExact(h.memory);
    WholeExact(h.memoryReservation);
    if Cpu in r.requests {
      assert h.annotations[CPU_REQUEST := syntax.show(r.requests[Cpu])] == h.annotations;
    } else if CPU_REQUEST !in h.annotations {
      assert h.annotations - {CPU_REQUEST} == h.annotations;
    } else {
      assert CPU_REQUEST !in h.annotations - {CPU_REQUEST};
    }
  }

  /** A user's own annotation under that key is stored at creation and gone at inspection. */
  lemma AnnotationIsLost(syntax: Syntax)
    ensures var h := EMPTY.(annotations := map[CPU_REQUEST := "mine"]);
            Describes(h, Requirements(map[], map[])) && Reconciled(syntax, h, Requirements(map[], map[])) == Some(EMPTY)
  {
  }
}
