/** Build credentials: short-lived registry logins bound to exact repositories of one namespace.

    Issuing a credential also removes the records that have expired. The clock never runs back; the
    time is read anew for every record that is compared. */
module BuildCredentials {
  import opened Common
  import opened RepositoryNames

  type User = string

  const LIFETIME := 3600

  datatype Record = Record(hash: string, namespace: string, repositories: seq<string>, expiresAt: int)

  /** Password hashing and the syntax checks of other packages are parameters. */
  datatype Env = Env(hash: string -> string, validRepository: string -> bool, validPart: string -> bool)

  type Records = map<User, Record>

  /** `scan` gives the clock reading at which the record of a user was compared. */
  datatype Event =
    | Issue(namespace: string, repositories: seq<string>, user: User, password: string,
            at: int, scan: User -> int, done: int)
    | Revoke(namespace: string, user: User)
    | Tick(to: int)

  predicate Issuable(env: Env, namespace: string, repositories: seq<string>) {
    && ValidNamespace(namespace) && repositories != []
    && forall repo :: repo in repositories ==> HasPrefix(repo, namespace + "/") && env.validRepository(repo)
  }

  function NewRecord(env: Env, namespace: string, repositories: seq<string>, password: string, at: int): Record {
    Record(env.hash(password), namespace, repositories, at + LIFETIME)
  }

  predicate Revocable(env: Env, records: Records, namespace: string, user: User) {
    && ValidNamespace(namespace) && HasPrefix(user, "build_") && env.validPart(user)
    && user in records && records[user].namespace == namespace
  }

  function VerifyBuild(env: Env, records: Records, user: User, password: string, now: int): Option<(string, seq<string>)> {
    if user in records && now < records[user].expiresAt && records[user].hash == env.hash(password)
    then Some((records[user].namespace, records[user].repositories)) else None
  }

  predicate CanWrite(scope: seq<string>, repo: string) {
    repo in scope
  }

  // ----- the store, updated in place

  class Store {
    const env: Env
    var records: Records

    constructor (env: Env)
      ensures this.env == env && records == map[]
    {
      this.env, records := env, map[];
    }

    /** `IssueBuild`. Unless the store is `healthy` its transaction may fail, which changes nothing. */
    method IssueBuild(namespace: string, repositories: seq<string>, user: User, password: string, at: int, scan: User -> int,
                      healthy: bool)
      returns (ok: bool)
      modifies this
      ensures ok ==> Issuable(env, namespace, repositories)
      ensures healthy && Issuable(env, namespace, repositories) ==> ok
      ensures records == if ok then Apply(env, old(records), Issue(namespace, repositories, user, password, at, scan, at))
                         else old(records)
    {
      if !ValidNamespace(namespace) || |repositories| == 0 { return false; }
      for i := 0 to |repositories|
        invariant forall j :: 0 <= j < i ==> HasPrefix(repositories[j], namespace + "/") && env.validRepository(repositories[j])
      {
        if !HasPrefix(repositories[i], namespace + "/") || !env.validRepository(repositories[i]) { return false; }
      }
      if !healthy { if * { return false; } }
      var todo, expired := records.Keys, {};
      while todo != {}
        invariant todo <= records.Keys
        invariant expired == set u | u in records.Keys - todo && records[u].expiresAt <= scan(u)
        decreases todo
      {
        var u :| u in todo;
        if !(scan(u) < records[u].expiresAt) { expired := expired + {u}; }
        todo := todo - {u};
      }
      records := (records - expired)[user := NewRecord(env, namespace, repositories, password, at)];
      return true;
    }

    /** `RevokeBuild`. A credential that is gone already counts as revoked. */
    method RevokeBuild(namespace: string, user: User, healthy: bool) returns (ok: bool)
      modifies this
      ensures ok ==> user !in records && records == Apply(env, old(records), Revoke(namespace, user))
      ensures !ok ==> records == old(records)
      ensures healthy ==> (ok <==> ValidNamespace(namespace) && HasPrefix(user, "build_") && env.validPart(user) &&
                                   (user in old(records) ==> old(records)[user].namespace == namespace))
    {
      if !ValidNamespace(namespace) || !HasPrefix(user, "build_") || !env.validPart(user) { return false; }
      if !healthy { if * { return false; } }
      if user !in records { return true; }
      if records[user].namespace != namespace { return false; }
      records := records - {user};
      return true;
    }
  }

  // ----- what happens to the records over a run

  /** The store as it is: issuing drops every record found expired. */
  function Apply(env: Env, records: Records, e: Event): Records {
    match e
    case Issue(ns, repos, user, password, at, scan, _) =>
      if Issuable(env, ns, repos) then
        (map u | u in records && scan(u) < records[u].expiresAt :: records[u])[user := NewRecord(env, ns, repos, password, at)]
      else records
    case Revoke(ns, user) => if Revocable(env, records, ns, user) then records - {user} else records
    case Tick(_) => records
  }

  /** A store that never drops a record it was not asked to revoke. */
  function Keep(env: Env, records: Records, e: Event): Records {
    match e
    case Issue(ns, repos, user, password, at, _, _) =>
      if Issuable(env, ns, repos) then records[user := NewRecord(env, ns, repos, password, at)] else records
    case Revoke(ns, user) => if Revocable(env, records, ns, user) then records - {user} else records
    case Tick(_) => records
  }

  ghost predicate TimesOk(now: int, e: Event) {
    match e
    case Issue(_, _, _, _, at, scan, done) => now <= at && forall u {:trigger scan(u)} :: at <= scan(u) <= done
    case Revoke(_, _) => true
    case Tick(to) => now <= to
  }

  function Later(now: int, e: Event): int {
    match e
    case Issue(_, _, _, _, _, _, done) => done
    case Revoke(_, _) => now
    case Tick(to) => to
  }

  datatype Run = Run(purged: Records, kept: Records, now: int)

  /** Both stores after a run from an empty store. */
  function After(env: Env, events: seq<Event>, start: int): Run {
    if events == [] then Run(map[], map[], start)
    else
      var before, e := After(env, events[..|events| - 1], start), events[|events| - 1];
      Run(Apply(env, before.purged, e), Keep(env, before.kept, e), Later(before.now, e))
  }

  ghost predicate RunOk(env: Env, events: seq<Event>, start: int) {
    forall i :: 0 <= i < |events| ==> TimesOk(After(env, events[..i], start).now, events[i])
  }

  ghost predicate Agree(r: Run) {
    && (forall u :: u in r.purged ==> u in r.kept && r.kept[u] == r.purged[u])
    && (forall u :: u in r.kept && u !in r.purged ==> r.kept[u].expiresAt <= r.now)
  }

  lemma StepAgrees(env: Env, r: Run, e: Event)
    requires Agree(r) && TimesOk(r.now, e)
    ensures Agree(Run(Apply(env, r.purged, e), Keep(env, r.kept, e), Later(r.now, e)))
    ensures r.now <= Later(r.now, e)
  {
    if e.Issue? { assert e.at <= e.scan(e.user) <= e.done; }
  }

  lemma {:induction false} RunAgrees(env: Env, events: seq<Event>, start: int)
    requires RunOk(env, events, start)
    ensures Agree(After(env, events, start))
  {
    if events != [] {
      var init := events[..|events| - 1];
      PrefixOk(env, events, start, |events| - 1);
      RunAgrees(env, init, start);
      StepAgrees(env, After(env, init, start), events[|events| - 1]);
    }
  }

  lemma PrefixOk(env: Env, events: seq<Event>, start: int, n: nat)
    requires RunOk(env, events, start) && n <= |events|
    ensures RunOk(env, events[..n], start)
  {
    forall i | 0 <= i < n
      ensures TimesOk(After(env, events[..n][..i], start).now, events[..n][i])
    {
      assert events[..n][..i] == events[..i];
    }
  }

  /** Dropping expired records is invisible: at any time from the end of the run on, every login is
      answered as by a store that never drops one. */
  lemma PurgeIsInvisible(env: Env, events: seq<Event>, start: int, user: User, password: string, now: int)
    requires RunOk(env, events, start) && After(env, events, start).now <= now
    ensures VerifyBuild(env, After(env, events, start).purged, user, password, now) ==
            VerifyBuild(env, After(env, events, start).kept, user, password, now)
  {
    RunAgrees(env, events, start);
  }

  /** The record of `user` was made by event `i`, and nothing revoked or replaced it since. */
  ghost predicate MadeBy(env: Env, events: seq<Event>, user: User, record: Record, i: int) {
    && 0 <= i < |events| && events[i].Issue? && events[i].user == user
    && Issuable(env, events[i].namespace, events[i].repositories)
    && record == Record(env.hash(events[i].password), events[i].namespace, events[i].repositories, events[i].at + 3600)
    && forall j :: i < j < |events| ==> !Ends(env, events[j], user, record.namespace)
  }

  predicate Ends(env: Env, e: Event, user: User, namespace: string) {
    match e
    case Issue(ns, repos, u, _, _, _, _) => u == user && Issuable(env, ns, repos)
    case Revoke(ns, u) => u == user && ns == namespace && HasPrefix(u, "build_") && env.validPart(u)
    case Tick(_) => false
  }

  lemma {:induction false} KeptIsMade(env: Env, events: seq<Event>, start: int, user: User)
    requires user in After(env, events, start).kept
    ensures exists i :: MadeBy(env, events, user, After(env, events, start).kept[user], i)
  {
    var init, e := events[..|events| - 1], events[|events| - 1];
    var record := After(env, events, start).kept[user];
    if e.Issue? && e.user == user && Issuable(env, e.namespace, e.repositories) {
      assert MadeBy(env, events, user, record, |events| - 1);
    } else {
      KeptIsMade(env, init, start, user);
      var i :| MadeBy(env, init, user, record, i);
      forall j | i < j < |events|
        ensures !Ends(env, events[j], user, record.namespace)
      {
        if j < |init| { assert !Ends(env, init[j], user, record.namespace); }
      }
      assert MadeBy(env, events, user, record, i);
    }
  }

  lemma {:induction false} MadeIsKept(env: Env, events: seq<Event>, start: int, user: User, record: Record, i: int)
    requires MadeBy(env, events, user, record, i)
    ensures user in After(env, events, start).kept && After(env, events, start).kept[user] == record
    decreases |events|
  {
    var init := events[..|events| - 1];
    if i < |init| {
      forall j | i < j < |init|
        ensures !Ends(env, init[j], user, record.namespace)
      {
        assert init[j] == events[j];
      }
      assert MadeBy(env, init, user, record, i);
      MadeIsKept(env, init, start, user, record, i);
      assert !Ends(env, events[|events| - 1], user, record.namespace);
    }
  }

  /** Event `i` issued to `user` what a login with `password` is answered with at time `now`: the password
      is right, the hour is not over, and nothing revoked or replaced the credential since. */
  ghost predicate Grants(env: Env, events: seq<Event>, user: User, password: string, now: int, namespace: string,
                         repositories: seq<string>, i: int) {
    && 0 <= i < |events| && events[i].Issue? && events[i].user == user && Issuable(env, namespace, repositories)
    && events[i].namespace == namespace && events[i].repositories == repositories
    && env.hash(events[i].password) == env.hash(password) && now < events[i].at + 3600
    && forall j :: i < j < |events| ==> !Ends(env, events[j], user, namespace)
  }

  /** Over every run, at any time from its end on: a login is accepted, with a namespace and repositories,
      if and only if a credential for exactly these was issued to it that is unexpired and was not revoked
      or replaced. */
  lemma LoginExactly(env: Env, events: seq<Event>, start: int, user: User, password: string, now: int,
                     namespace: string, repositories: seq<string>)
    requires RunOk(env, events, start) && After(env, events, start).now <= now
    ensures VerifyBuild(env, After(env, events, start).purged, user, password, now) == Some((namespace, repositories)) <==>
            exists i :: Grants(env, events, user, password, now, namespace, repositories, i)
  {
    PurgeIsInvisible(env, events, start, user, password, now);
    var kept := After(env, events, start).kept;
    if VerifyBuild(env, kept, user, password, now) == Some((namespace, repositories)) {
      KeptIsMade(env, events, start, user);
      var i :| MadeBy(env, events, user, kept[user], i);
      assert Grants(env, events, user, password, now, namespace, repositories, i);
    }
    if i :| Grants(env, events, user, password, now, namespace, repositories, i) {
      var record := Record(env.hash(events[i].password), namespace, repositories, events[i].at + 3600);
      assert MadeBy(env, events, user, record, i);
      MadeIsKept(env, events, start, user, record, i);
    }
  }

  /** A login that is accepted may write to exactly the repositories of one such credential, and all of
      them lie under its namespace. */
  lemma VerifiedScope(env: Env, events: seq<Event>, start: int, user: User, password: string, now: int)
    requires RunOk(env, events, start) && After(env, events, start).now <= now
    requires VerifyBuild(env, After(env, events, start).purged, user, password, now).Some?
    ensures var (ns, scope) := VerifyBuild(env, After(env, events, start).purged, user, password, now).value;
            && (exists i :: Grants(env, events, user, password, now, ns, scope, i) &&
                            forall repo :: CanWrite(scope, repo) <==> repo in events[i].repositories)
            && (forall repo :: CanWrite(scope, repo) ==> HasPrefix(repo, ns + "/"))
  {
    var (ns, scope) := VerifyBuild(env, After(env, events, start).purged, user, password, now).value;
    LoginExactly(env, events, start, user, password, now, ns, scope);
  }
}
