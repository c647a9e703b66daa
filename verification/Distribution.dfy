/**
 Building a distribution from a runtime lock, and verifying one that is on disk. The two derive the same facts with
 different code: what a build assembles has to pass the verification that follows it.

 Hashing, unpacking, running executables and reading JSON are functions of the world the build runs in.
 */
module Distribution {
  import opened Options

  type Bytes = string
  type Digest = string
  type Name = string
  type Platform = string

  /** An artifact of the lock, and the places its parts are installed to. */
  datatype Artifact = Artifact(sha256: Digest, source: string, destinations: seq<string>)

  datatype Locked = Locked(
    version: string,
    executable: string,
    artifacts: map<Platform, Artifact>,
    unsupported: map<Platform, string>)

  /** The lock: `names` are the keys of `runtimes` in their order. */
  datatype Lock = Lock(schema: nat, names: seq<Name>, runtimes: map<Name, Locked>)

  datatype Installed = Installed(
    version: string,
    executable: string,
    artifactSha256: Digest,
    payloadSha256: Digest,
    reported: string,
    availability: string,
    support: string,
    reason: Option<string>,
    capabilities: Option<string>)

  type Runtimes = map<Name, Installed>
  type Starters = map<string, Digest>

  datatype Manifest = Manifest(
    schema: nat,
    computeVersion: string,
    id: Digest,
    platform: Platform,
    profile: string,
    status: string,
    lockSha256: Digest,
    certification: string,
    starters: Starters,
    runtimes: Runtimes)

  /** The tree under construction: what the digest reads of each `runtimes/NAME`, and everything else. */
  datatype Disk = Disk(payloads: map<Name, Bytes>, rest: string)

  /** A distribution on disk; a file that is missing or unreadable is `None`. */
  datatype Root = Root(manifest: Option<Manifest>, lockBytes: Option<Bytes>, inventory: Option<Runtimes>, disk: Disk)

  datatype World = World(
    host: Platform,
    computeVersion: string,
    hash: Bytes -> Digest,
    parseLock: Bytes -> Option<Lock>,
    knownPlatform: Platform -> bool,
    identity: (string, Platform, string, string, Digest, Starters, Runtimes) -> Option<Digest>,
    // Starter recipes and the Compute executable, which a build installs first.
    installBase: Disk -> Option<Disk>,
    expectedStarters: Starters,
    installedStarters: Disk -> Option<Starters>,
    startersDiscoverable: Disk -> bool,
    binary: Disk -> Bytes,
    binaryReports: (Disk, string) -> bool,
    // What is known of a runtime: `None` is an error, `Some(None)` a runtime that is not one of Compute's own.
    capabilities: Name -> Option<Option<string>>,
    // Artifacts and executables. `parts` are the components of a path, `tree` is all that is in a runtime's directory,
    // modes included.
    obtainable: Artifact -> bool,
    install: (Disk, Artifact) -> Option<Disk>,
    safe: string -> bool,
    parts: string -> seq<string>,
    tree: (Disk, Name) -> string,
    isFile: (Disk, string) -> bool,
    makeExecutable: (Disk, string) -> Disk,
    probe: (Disk, Name, string, string) -> Option<string>,
    // Certification: what is installed for it, and the commands that run it.
    prepare: Disk -> Option<Disk>,
    certify: Disk -> Option<Disk>)

  const LOCK_SCHEMA := 2
  const MANIFEST_SCHEMA := 3
  const BASE := "base"
  const CERTIFIED := "certified"
  const PREVIEW := "preview"
  const PASS := "pass"
  const NOT_RUN := "not_run"
  const SUPPORTED := "supported"
  const UNSUPPORTED := "unsupported"
  const UNAVAILABLE := "unavailable"

  ghost predicate LockFits(lock: Lock) {
    && (forall i, j | 0 <= i < j < |lock.names| :: lock.names[i] != lock.names[j])
    && (forall n :: n in lock.names <==> n in lock.runtimes)
  }

  /** An executable that is not a file: part of Compute, or of the workload. */
  predicate Embedded(executable: string) {
    executable != "" && executable[0] == '<'
  }

  lemma EmbeddedExactlyWhen(executable: string)
    ensures Embedded(executable) <==> exists rest :: executable == "<" + rest
  {
    if Embedded(executable) { assert executable == "<" + executable[1..]; }
  }

  /** `hash_tree` of `runtimes/NAME`. */
  function TreeHash(w: World, d: Disk, name: Name): Option<Digest> {
    if name in d.payloads then Some(w.hash(d.payloads[name])) else None
  }

  function IdentityOf(w: World, m: Manifest): Option<Digest> {
    w.identity(m.computeVersion, m.platform, m.profile, m.status, m.lockSha256, m.starters, m.runtimes)
  }

  // ---- Verifying --------------------------------------------------------

  /** No native artifact of the runtime exists for the platform. */
  predicate Lacks(locked: Locked, platform: Platform) {
    platform in locked.unsupported || (locked.artifacts != map[] && platform !in locked.artifacts)
  }

  predicate StatusFits(m: Manifest) {
    && m.profile == BASE
    && ((m.status == CERTIFIED && m.certification == PASS) || (m.status == PREVIEW && m.certification == PREVIEW))
  }

  predicate Declared(m: Manifest, installed: Installed, locked: Locked) {
    && installed.version == locked.version
    && installed.executable == locked.executable
    && installed.availability == SUPPORTED
    && installed.support == m.status
    && installed.reason.None?
    && (m.platform in locked.artifacts ==> locked.artifacts[m.platform].sha256 == installed.artifactSha256)
  }

  predicate DeclaredUnavailable(m: Manifest, installed: Installed, locked: Locked) {
    && installed.version == locked.version
    && installed.executable == locked.executable
    && m.status == PREVIEW
    && installed.support == UNSUPPORTED
    && installed.reason.Some?
    && Lacks(locked, m.platform)
  }

  /** The payload is the one in the manifest, and its executable still reports the locked version. */
  predicate Present(w: World, d: Disk, name: Name, installed: Installed, locked: Locked) {
    && TreeHash(w, d, name) == Some(installed.payloadSha256)
    && w.probe(d, name, locked.executable, locked.version).Some?
  }

  predicate RuntimeFits(w: World, d: Disk, m: Manifest, name: Name, locked: Locked) {
    && name in m.runtimes
    && var installed := m.runtimes[name];
       if installed.availability == UNAVAILABLE then DeclaredUnavailable(m, installed, locked)
       else
         && Declared(m, installed, locked)
         && (!Embedded(locked.executable) ==> w.safe(locked.executable) && Present(w, d, name, installed, locked))
  }

  predicate FilesFit(w: World, root: Root, m: Manifest, lockBytes: Bytes, lock: Lock) {
    && m.schema == MANIFEST_SCHEMA
    && StatusFits(m)
    && lock.schema == LOCK_SCHEMA && w.hash(lockBytes) == m.lockSha256
    && m.platform == w.host
    && w.binaryReports(root.disk, m.computeVersion)
    && m.starters == w.expectedStarters && w.installedStarters(root.disk) == Some(w.expectedStarters)
    && w.startersDiscoverable(root.disk)
    && root.inventory == Some(m.runtimes)
    && IdentityOf(w, m) == Some(m.id)
  }

  /** A distribution that is what its manifest and its lock say: the lock's runtimes are the manifest's, all of them. */
  ghost predicate Genuine(w: World, root: Root) {
    && root.manifest.Some? && root.lockBytes.Some? && w.parseLock(root.lockBytes.value).Some?
    && var m, lock := root.manifest.value, w.parseLock(root.lockBytes.value).value;
       && FilesFit(w, root, m, root.lockBytes.value, lock)
       && m.runtimes.Keys == lock.runtimes.Keys
       && forall n | n in lock.runtimes :: RuntimeFits(w, root.disk, m, n, lock.runtimes[n])
  }

  datatype Check = Check(name: string, passed: bool)

  function AllPassed(checks: seq<Check>): (all: bool)
    ensures all <==> forall i | 0 <= i < |checks| :: checks[i].passed
  {
    forall c | c in checks :: c.passed
  }

  /** The checks of one runtime. */
  method CheckRuntime(w: World, d: Disk, m: Manifest, name: Name, locked: Locked) returns (check: Check)
    ensures check.passed <==> RuntimeFits(w, d, m, name, locked)
  {
    var title := "runtime:" + name;
    if name !in m.runtimes { return Check(title, false); }
    var installed := m.runtimes[name];
    var expected := if m.platform in locked.artifacts then Some(locked.artifacts[m.platform].sha256) else None;
    var declared := installed.version == locked.version
      && installed.executable == locked.executable
      && installed.availability == SUPPORTED
      && installed.support == m.status
      && installed.reason.None?
      && (expected.None? || expected.value == installed.artifactSha256);
    if installed.availability == UNAVAILABLE {
      var justified := m.status == PREVIEW
        && installed.support == UNSUPPORTED
        && installed.reason.Some?
        && (m.platform in locked.unsupported || (locked.artifacts != map[] && m.platform !in locked.artifacts));
      return Check(title, installed.version == locked.version && installed.executable == locked.executable && justified);
    }
    if Embedded(locked.executable) { return Check(title, declared); }
    if !w.safe(locked.executable) { return Check(title, false); }
    var payload := TreeHash(w, d, name);
    var matches := payload.Some? && payload.value == installed.payloadSha256;
    var launched := w.probe(d, name, locked.executable, locked.version).Some?;
    check := Check(title, declared && matches && launched);
  }

  /** The checks that do not concern one runtime, in their order; the identity comes last. */
  method CheckFiles(w: World, root: Root, m: Manifest, lockBytes: Bytes, lock: Lock) returns (checks: seq<Check>)
    ensures AllPassed(checks) && IdentityOf(w, m) == Some(m.id) <==> FilesFit(w, root, m, lockBytes, lock)
  {
    var manifest := Check("manifest", m.schema == MANIFEST_SCHEMA);
    var status := Check("distribution_status", m.profile == BASE
                        && (m.status == CERTIFIED || m.status == PREVIEW)
                        && (if m.status == CERTIFIED then m.certification == PASS else m.certification == PREVIEW));
    var locked := Check("runtime_lock", lock.schema == LOCK_SCHEMA && w.hash(lockBytes) == m.lockSha256);
    var platform := Check("platform", m.platform == w.host);
    var binary := Check("compute_binary", w.binaryReports(root.disk, m.computeVersion));
    var starters := Check("starter_recipes", m.starters == w.expectedStarters
                          && w.installedStarters(root.disk) == Some(w.expectedStarters)
                          && w.startersDiscoverable(root.disk));
    var inventory := Check("runtime_inventory", root.inventory == Some(m.runtimes));
    assert StatusFits(m) <==> status.passed;
    checks := [manifest, status, locked, platform, binary, starters, inventory];
    assert checks[0] == manifest && checks[1] == status && checks[2] == locked && checks[3] == platform;
    assert checks[4] == binary && checks[5] == starters && checks[6] == inventory;
  }

  lemma PassedTogether(a: seq<Check>, b: seq<Check>)
    ensures AllPassed(a + b) <==> AllPassed(a) && AllPassed(b)
  {
    if AllPassed(a + b) {
      assert forall i | 0 <= i < |a| :: a[i] == (a + b)[i];
      assert forall i | 0 <= i < |b| :: b[i] == (a + b)[|a| + i];
    }
  }

  /** The manifest has as many runtimes as the lock, and has every runtime of the lock: then the sets are equal. */
  lemma SameNames(m: Manifest, lock: Lock)
    requires |lock.runtimes| == |m.runtimes| && forall n | n in lock.runtimes :: n in m.runtimes
    ensures m.runtimes.Keys == lock.runtimes.Keys
  {
    var extra := m.runtimes.Keys - lock.runtimes.Keys;
    assert lock.runtimes.Keys <= m.runtimes.Keys;
    assert m.runtimes.Keys == lock.runtimes.Keys + extra && lock.runtimes.Keys !! extra;
    assert |lock.runtimes.Keys| == |lock.runtimes| && |m.runtimes.Keys| == |m.runtimes|;
    assert |extra| == 0;
  }

  /**
   `verify_root`. The code compares the numbers of runtimes and looks up the lock's names in the manifest; the
   manifest's names are then exactly the lock's.
   */
  method VerifyRoot(w: World, root: Root) returns (checks: seq<Check>, passed: bool)
    requires forall b: Bytes | w.parseLock(b).Some? :: LockFits(w.parseLock(b).value)
    ensures passed <==> Genuine(w, root)
  {
    if root.manifest.None? { return [Check("manifest", false)], false; }
    var m := root.manifest.value;
    if root.lockBytes.None? || w.parseLock(root.lockBytes.value).None? {
      return [Check("manifest", m.schema == MANIFEST_SCHEMA),
              Check("distribution_status", StatusFits(m)),
              Check("runtime_lock", false)], false;
    }
    var lockBytes := root.lockBytes.value;
    var lock := w.parseLock(lockBytes).value;
    var files := CheckFiles(w, root, m, lockBytes, lock);
    var sizes: seq<Check> := if |lock.runtimes| != |m.runtimes| then [Check("runtime_set", false)] else [];
    var runtimes := CheckRuntimes(w, root.disk, m, lock);
    var identity := Check("distribution_identity", IdentityOf(w, m) == Some(m.id));
    checks := files + sizes + runtimes + [identity];
    PassedTogether(files, sizes);
    PassedTogether(files + sizes, runtimes);
    PassedTogether(files + sizes + runtimes, [identity]);
    assert [identity][0] == identity;
    assert AllPassed(sizes) <==> |lock.runtimes| == |m.runtimes| by {
      if |lock.runtimes| != |m.runtimes| { assert !sizes[0].passed; }
    }
    passed := AllPassed(checks);
    hide FilesFit, RuntimeFits, AllPassed;
    if passed {
      assert forall n | n in lock.runtimes :: RuntimeFits(w, root.disk, m, n, lock.runtimes[n]);
      FitsIsListed(w, root.disk, m, lock);
      SameNames(m, lock);
    }
    if Genuine(w, root) {
      assert |lock.runtimes| == |lock.runtimes.Keys| == |m.runtimes.Keys| == |m.runtimes|;
    }
  }

  lemma FitsIsListed(w: World, d: Disk, m: Manifest, lock: Lock)
    requires forall n | n in lock.runtimes :: RuntimeFits(w, d, m, n, lock.runtimes[n])
    ensures forall n | n in lock.runtimes :: n in m.runtimes
  {
  }

  method CheckRuntimes(w: World, d: Disk, m: Manifest, lock: Lock) returns (checks: seq<Check>)
    requires LockFits(lock)
    ensures AllPassed(checks) <==> forall n | n in lock.runtimes :: RuntimeFits(w, d, m, n, lock.runtimes[n])
  {
    hide RuntimeFits, AllPassed;
    checks := [];
    for i := 0 to |lock.names|
      invariant AllPassed(checks) <==> forall k | 0 <= k < i :: RuntimeFits(w, d, m, lock.names[k], lock.runtimes[lock.names[k]])
    {
      assert lock.names[i] in lock.names;
      var check := CheckRuntime(w, d, m, lock.names[i], lock.runtimes[lock.names[i]]);
      PassedTogether(checks, [check]);
      assert AllPassed([check]) <==> check.passed by { assert [check][0] == check; }
      checks := checks + [check];
    }
    forall n | n in lock.runtimes ensures exists k :: 0 <= k < |lock.names| && lock.names[k] == n {
      assert n in lock.names;
    }
  }

  // ---- Installing the runtimes ------------------------------------------

  datatype BuildOptions = BuildOptions(platform: Platform, status: string, verify: bool, outputExists: bool)

  /** The tree after a runtime, and its manifest entry. */
  datatype Step = Step(disk: Disk, installed: Installed)

  function UnavailableReason(platform: Platform, name: Name, locked: Locked): (reason: Option<string>)
    ensures reason.Some? <==> Lacks(locked, platform)
  {
    if platform in locked.unsupported then Some(locked.unsupported[platform])
    else if locked.artifacts != map[] && platform !in locked.artifacts
    then Some("runtime " + name + " has no native artifact for " + platform)
    else None
  }

  function Unavailable(locked: Locked, reason: string, capabilities: Option<string>): Installed {
    Installed(locked.version, locked.executable, "", "", "", UNAVAILABLE, UNSUPPORTED, Some(reason), capabilities)
  }

  function Supported(locked: Locked, status: string, artifact: Digest, payload: Digest, reported: string,
                     capabilities: Option<string>): Installed {
    Installed(locked.version, locked.executable, artifact, payload, reported, SUPPORTED, status, None, capabilities)
  }

  /** The artifact unpacked, if the runtime has one, and its digest; without one, that of Compute itself. */
  function Unpack(w: World, platform: Platform, locked: Locked, d: Disk): Option<(Disk, Digest)> {
    if locked.artifacts == map[] then Some((d, w.hash(w.binary(d))))
    else if platform !in locked.artifacts || !w.obtainable(locked.artifacts[platform]) then None
    else
      match w.install(d, locked.artifacts[platform])
      case Some(after) => Some((after, locked.artifacts[platform].sha256))
      case None => None
  }

  /** The executable made to run, and what it reports. */
  function Launch(w: World, status: string, name: Name, locked: Locked, d: Disk, artifact: Digest,
                  capabilities: Option<string>): Option<Step> {
    if !w.safe(locked.executable) then None
    else if Embedded(locked.executable) then
      Some(Step(d, Supported(locked, status, artifact, artifact, locked.version, capabilities)))
    else if !w.isFile(d, locked.executable) then None
    else
      var ready := w.makeExecutable(d, locked.executable);
      var reported := w.probe(ready, name, locked.executable, locked.version);
      var payload := TreeHash(w, ready, name);
      if reported.None? || payload.None? then None
      else Some(Step(ready, Supported(locked, status, artifact, payload.value, reported.value, capabilities)))
  }

  function InstallOne(w: World, o: BuildOptions, name: Name, locked: Locked, d: Disk): Option<Step> {
    match w.capabilities(name)
    case None => None
    case Some(capabilities) =>
      match UnavailableReason(o.platform, name, locked)
      case Some(reason) => if o.status == CERTIFIED then None else Some(Step(d, Unavailable(locked, reason, capabilities)))
      case None =>
        match Unpack(w, o.platform, locked, d)
        case Some(unpacked) => Launch(w, o.status, name, locked, unpacked.0, unpacked.1, capabilities)
        case None => None
  }

  /** The tree and the manifest entries after the runtimes from the `k`-th on. */
  ghost function InstallFrom(w: World, o: BuildOptions, lock: Lock, k: nat, d: Disk, runtimes: Runtimes): Option<(Disk, Runtimes)>
    requires LockFits(lock) && k <= |lock.names|
    decreases |lock.names| - k
  {
    if k == |lock.names| then Some((d, runtimes))
    else
      var name := lock.names[k];
      match InstallOne(w, o, name, lock.runtimes[name], d)
      case Some(step) => InstallFrom(w, o, lock, k + 1, step.disk, runtimes[name := step.installed])
      case None => None
  }

  // ---- Assembling -------------------------------------------------------

  function Rehash(w: World, d: Disk, name: Name, installed: Installed): Option<Installed> {
    if Embedded(installed.executable) then Some(installed)
    else
      match TreeHash(w, d, name)
      case Some(payload) => Some(installed.(payloadSha256 := payload))
      case None => None
  }

  function RehashAll(w: World, d: Disk, runtimes: Runtimes): Option<Runtimes> {
    if forall n | n in runtimes :: Rehash(w, d, n, runtimes[n]).Some?
    then Some(map n | n in runtimes :: Rehash(w, d, n, runtimes[n]).value)
    else None
  }

  function Draft(w: World, o: BuildOptions, lockBytes: Bytes, runtimes: Runtimes): Option<Manifest> {
    var m := Manifest(MANIFEST_SCHEMA, w.computeVersion, "", o.platform, BASE, o.status, w.hash(lockBytes),
                      if o.status == PREVIEW then PREVIEW else NOT_RUN, w.expectedStarters, runtimes);
    match IdentityOf(w, m)
    case Some(id) => Some(m.(id := id))
    case None => None
  }

  /** The manifest after certification, whose payloads are hashed again. */
  function Certify(w: World, m: Manifest, d: Disk): Option<(Manifest, Disk)> {
    match w.prepare(d)
    case None => None
    case Some(prepared) =>
      match RehashAll(w, prepared, m.runtimes)
      case None => None
      case Some(runtimes) =>
        var hashed := m.(runtimes := runtimes);
        match IdentityOf(w, hashed)
        case None => None
        case Some(id) =>
          match w.certify(prepared)
          case None => None
          case Some(after) => Some((hashed.(id := id, certification := PASS), after))
  }

  /** The options a build refuses at once. */
  predicate OptionsFit(w: World, o: BuildOptions, lock: Lock) {
    && lock.schema == LOCK_SCHEMA
    && w.knownPlatform(o.platform)
    && (o.status == CERTIFIED ==> o.verify)
    && (o.status == PREVIEW ==> !o.verify)
    && !o.outputExists
  }

  /** What a build has assembled when it comes to verifying it. */
  ghost function Assembled(w: World, o: BuildOptions, lockBytes: Bytes, lock: Lock, start: Disk): Option<Root>
    requires LockFits(lock)
  {
    if !OptionsFit(w, o, lock) || w.installBase(start).None? then None
    else
      match InstallFrom(w, o, lock, 0, w.installBase(start).value, map[])
      case None => None
      case Some((disk, runtimes)) =>
        match Draft(w, o, lockBytes, runtimes)
        case None => None
        case Some(m) =>
          if !o.verify then Some(Root(Some(m), Some(lockBytes), Some(m.runtimes), disk))
          else
            match Certify(w, m, disk)
            case None => None
            case Some((certified, after)) => Some(Root(Some(certified), Some(lockBytes), Some(certified.runtimes), after))
  }

  /** The loop of `build` over the runtimes of the lock. */
  method InstallRuntimes(w: World, o: BuildOptions, lock: Lock, start: Disk) returns (done: bool, disk: Disk, runtimes: Runtimes)
    requires LockFits(lock)
    ensures InstallFrom(w, o, lock, 0, start, map[]) == if done then Some((disk, runtimes)) else None
  {
    hide UnavailableReason, Unpack, Launch;
    disk, runtimes := start, map[];
    for k := 0 to |lock.names|
      invariant InstallFrom(w, o, lock, 0, start, map[]) == InstallFrom(w, o, lock, k, disk, runtimes)
    {
      var name := lock.names[k];
      var locked := lock.runtimes[name];
      var capabilities := w.capabilities(name);
      if capabilities.None? { return false, disk, runtimes; }
      var reason := UnavailableReason(o.platform, name, locked);
      if reason.Some? {
        if o.status == CERTIFIED { return false, disk, runtimes; }
        runtimes := runtimes[name := Unavailable(locked, reason.value, capabilities.value)];
        continue;
      }
      var unpacked := Unpack(w, o.platform, locked, disk);
      if unpacked.None? { return false, disk, runtimes; }
      var step := Launch(w, o.status, name, locked, unpacked.value.0, unpacked.value.1, capabilities.value);
      if step.None? { return false, disk, runtimes; }
      disk := step.value.disk;
      runtimes := runtimes[name := step.value.installed];
    }
    done := true;
  }

  /** The payloads of these runtimes have been hashed again, and no others. */
  ghost predicate RehashedOf(w: World, d: Disk, seen: set<Name>, runtimes: Runtimes, current: Runtimes) {
    && current.Keys == runtimes.Keys && seen <= runtimes.Keys
    && (forall n | n in seen :: Rehash(w, d, n, runtimes[n]) == Some(current[n]))
    && (forall n | n in runtimes && n !in seen :: current[n] == runtimes[n])
  }

  lemma RehashNext(w: World, d: Disk, seen: set<Name>, runtimes: Runtimes, current: Runtimes, n: Name)
    requires RehashedOf(w, d, seen, runtimes, current) && n in runtimes
    ensures Rehash(w, d, n, current[n]) == Rehash(w, d, n, runtimes[n])
    ensures var again := Rehash(w, d, n, current[n]);
            again.Some? ==> RehashedOf(w, d, seen + {n}, runtimes, current[n := again.value])
  {
    hide Rehash;
    if n in seen { RehashTwice(w, d, n, runtimes[n]); }
  }

  lemma RehashedAll(w: World, d: Disk, runtimes: Runtimes, current: Runtimes)
    requires RehashedOf(w, d, runtimes.Keys, runtimes, current)
    ensures RehashAll(w, d, runtimes) == Some(current)
  {
    hide Rehash;
    assert forall n | n in runtimes :: n in runtimes.Keys;
    assert current == map n | n in runtimes :: Rehash(w, d, n, runtimes[n]).value;
  }

  /** The loop of `build` that hashes the payloads again. */
  method RehashRuntimes(w: World, d: Disk, names: seq<Name>, runtimes: Runtimes) returns (hashed: Option<Runtimes>)
    requires forall n :: n in names <==> n in runtimes
    ensures hashed == RehashAll(w, d, runtimes)
  {
    var current := runtimes;
    ghost var seen: set<Name> := {};
    assert RehashedOf(w, d, seen, runtimes, current);
    hide Rehash, RehashedOf, RehashAll;
    for k := 0 to |names|
      invariant seen <= runtimes.Keys && forall i | 0 <= i < k :: names[i] in seen
      invariant current.Keys == runtimes.Keys && RehashedOf(w, d, seen, runtimes, current)
    {
      var n := names[k];
      assert n in names;
      RehashNext(w, d, seen, runtimes, current, n);
      var again := Rehash(w, d, n, current[n]);
      if again.None? { return None; }
      current := current[n := again.value];
      seen := seen + {n};
    }
    assert seen == runtimes.Keys by {
      forall n | n in runtimes ensures n in seen { assert n in names; }
    }
    RehashedAll(w, d, runtimes, current);
    hashed := Some(current);
  }

  lemma RehashTwice(w: World, d: Disk, name: Name, installed: Installed)
    ensures var once := Rehash(w, d, name, installed);
            once.Some? ==> Rehash(w, d, name, once.value) == once
  {
  }

  /** The certification half of `build`. */
  method CertifyDistribution(w: World, m: Manifest, d: Disk, names: seq<Name>) returns (certified: Option<(Manifest, Disk)>)
    requires forall n :: n in names <==> n in m.runtimes
    ensures certified == Certify(w, m, d)
  {
    hide RehashAll;
    var prepared := w.prepare(d);
    if prepared.None? { return None; }
    var runtimes := RehashRuntimes(w, prepared.value, names, m.runtimes);
    if runtimes.None? { return None; }
    var hashed := m.(runtimes := runtimes.value);
    var id := IdentityOf(w, hashed);
    if id.None? { return None; }
    hashed := hashed.(id := id.value);
    var after := w.certify(prepared.value);
    if after.None? { return None; }
    certified := Some((hashed.(certification := PASS), after.value));
  }

  datatype BuildResult = Refused | Built(root: Root)

  /** `build`: it ends with a distribution exactly when it could assemble one and that one verifies. */
  method Build(w: World, o: BuildOptions, lockBytes: Bytes, start: Disk) returns (result: BuildResult)
    requires forall b: Bytes | w.parseLock(b).Some? :: LockFits(w.parseLock(b).value)
    ensures w.parseLock(lockBytes).None? ==> result.Refused?
    ensures w.parseLock(lockBytes).Some? ==>
              var assembled := Assembled(w, o, lockBytes, w.parseLock(lockBytes).value, start);
              result == if assembled.Some? && Genuine(w, assembled.value) then Built(assembled.value) else Refused
    ensures result.Built? <==>
              && w.parseLock(lockBytes).Some? && CanAssemble(w, o, lockBytes, w.parseLock(lockBytes).value, start)
              && var root := Assembled(w, o, lockBytes, w.parseLock(lockBytes).value, start);
                 root.Some? && Holds(w, o, w.parseLock(lockBytes).value, root.value)
  {
    if w.parseLock(lockBytes).Some? {
      BuildsExactlyWhen(w, o, lockBytes, w.parseLock(lockBytes).value, start);
    }
    hide CanAssemble, Holds;
    if w.parseLock(lockBytes).None? { return Refused; }
    var lock := w.parseLock(lockBytes).value;
    if !OptionsFit(w, o, lock) { return Refused; }
    var base := w.installBase(start);
    if base.None? { return Refused; }
    var done, disk, runtimes := InstallRuntimes(w, o, lock, base.value);
    if !done { return Refused; }
    var draft := Draft(w, o, lockBytes, runtimes);
    if draft.None? { return Refused; }
    var root := Root(draft, Some(lockBytes), Some(draft.value.runtimes), disk);
    if o.verify {
      InstalledNames(w, o, lock, base.value);
      var certified := CertifyDistribution(w, draft.value, disk, lock.names);
      if certified.None? { return Refused; }
      root := Root(Some(certified.value.0), Some(lockBytes), Some(certified.value.0.runtimes), certified.value.1);
    }
    hide Genuine, InstallFrom, Draft, Certify;
    var _, passed := VerifyRoot(w, root);
    result := if passed then Built(root) else Refused;
  }

  // ---- When a build assembles anything ----------------------------------

  /** The tree once the runtime's artifact, if it has one that installs, is unpacked. */
  function UnpackedTree(w: World, platform: Platform, locked: Locked, d: Disk): Disk {
    if platform in locked.artifacts then w.install(d, locked.artifacts[platform]).GetOr(d) else d
  }

  /** The tree the runtime leaves behind: an unavailable one leaves it as it was. */
  function TreeAfter(w: World, platform: Platform, locked: Locked, d: Disk): Disk {
    if Lacks(locked, platform) then d
    else if Embedded(locked.executable) then UnpackedTree(w, platform, locked, d)
    else w.makeExecutable(UnpackedTree(w, platform, locked, d), locked.executable)
  }

  /**
   The runtime can be part of the build: it is not available on the platform, and the build is not to be certified; or
   its artifact can be had and installs, and its executable is embedded or is there, runs and has a payload.
   */
  predicate CanInstall(w: World, o: BuildOptions, name: Name, locked: Locked, d: Disk) {
    && w.capabilities(name).Some?
    && if Lacks(locked, o.platform) then o.status != CERTIFIED
       else
         && w.safe(locked.executable)
         && (o.platform in locked.artifacts ==>
               w.obtainable(locked.artifacts[o.platform]) && w.install(d, locked.artifacts[o.platform]).Some?)
         && (!Embedded(locked.executable) ==>
               var ready := TreeAfter(w, o.platform, locked, d);
               && w.isFile(UnpackedTree(w, o.platform, locked, d), locked.executable)
               && w.probe(ready, name, locked.executable, locked.version).Some? && name in ready.payloads)
  }

  /** One runtime: when it can be installed, what tree it leaves, and what its entry says it reported and came from. */
  lemma InstallsExactlyWhen(w: World, o: BuildOptions, name: Name, locked: Locked, d: Disk)
    ensures InstallOne(w, o, name, locked, d).Some? <==> CanInstall(w, o, name, locked, d)
    ensures CanInstall(w, o, name, locked, d) ==>
              var step := InstallOne(w, o, name, locked, d).value;
              && step.disk == TreeAfter(w, o.platform, locked, d)
              && Some(step.installed.capabilities) == w.capabilities(name)
              && (Lacks(locked, o.platform) ==> step.installed.availability == UNAVAILABLE && step.installed.reason.Some?)
              && (o.platform in locked.unsupported ==> step.installed.reason == Some(locked.unsupported[o.platform]))
              && (!Lacks(locked, o.platform) ==> step.installed.availability == SUPPORTED && step.installed.reason.None?)
              && (!Lacks(locked, o.platform) && locked.artifacts == map[] ==>
                    step.installed.artifactSha256 == w.hash(w.binary(d)))
              && (!Lacks(locked, o.platform) && !Embedded(locked.executable) ==>
                    Some(step.installed.reported) == w.probe(step.disk, name, locked.executable, locked.version))
  {
  }

  /** The tree when the build comes to the `k`-th runtime. */
  ghost function TreeAt(w: World, platform: Platform, lock: Lock, k: nat, base: Disk): Disk
    requires LockFits(lock) && k <= |lock.names|
  {
    if k == 0 then base
    else TreeAfter(w, platform, lock.runtimes[lock.names[k - 1]], TreeAt(w, platform, lock, k - 1, base))
  }

  ghost predicate CanInstallFrom(w: World, o: BuildOptions, lock: Lock, k: nat, base: Disk)
    requires LockFits(lock) && k <= |lock.names|
  {
    forall i | k <= i < |lock.names| ::
      CanInstall(w, o, lock.names[i], lock.runtimes[lock.names[i]], TreeAt(w, o.platform, lock, i, base))
  }

  lemma CanInstallNext(w: World, o: BuildOptions, lock: Lock, k: nat, base: Disk)
    requires LockFits(lock) && k < |lock.names|
    ensures CanInstallFrom(w, o, lock, k, base)
            <==> && CanInstall(w, o, lock.names[k], lock.runtimes[lock.names[k]], TreeAt(w, o.platform, lock, k, base))
                 && CanInstallFrom(w, o, lock, k + 1, base)
  {
    hide CanInstall, TreeAt;
  }

  lemma {:induction false} InstallsAllExactlyWhen(w: World, o: BuildOptions, lock: Lock, k: nat, base: Disk, runtimes: Runtimes)
    requires LockFits(lock) && k <= |lock.names|
    ensures var all := InstallFrom(w, o, lock, k, TreeAt(w, o.platform, lock, k, base), runtimes);
            && (all.Some? <==> CanInstallFrom(w, o, lock, k, base))
            && (all.Some? ==> all.value.0 == TreeAt(w, o.platform, lock, |lock.names|, base))
    decreases |lock.names| - k
  {
    hide InstallOne, CanInstall, TreeAfter, CanInstallFrom;
    if k == |lock.names| {
      NothingToInstall(w, o, lock, base);
    } else {
      CanInstallNext(w, o, lock, k, base);
      var name, d := lock.names[k], TreeAt(w, o.platform, lock, k, base);
      InstallsExactlyWhen(w, o, name, lock.runtimes[name], d);
      var step := InstallOne(w, o, name, lock.runtimes[name], d);
      if step.Some? {
        assert TreeAt(w, o.platform, lock, k + 1, base) == step.value.disk;
        InstallsAllExactlyWhen(w, o, lock, k + 1, base, runtimes[name := step.value.installed]);
      }
    }
  }

  lemma NothingToInstall(w: World, o: BuildOptions, lock: Lock, base: Disk)
    requires LockFits(lock)
    ensures CanInstallFrom(w, o, lock, |lock.names|, base)
  {
  }

  /** Certification can be prepared and run, and every runtime that is not embedded has a payload to hash again. */
  predicate CanCertify(w: World, m: Manifest, d: Disk) {
    && w.prepare(d).Some?
    && var prepared := w.prepare(d).value;
       && (forall n | n in m.runtimes && !Embedded(m.runtimes[n].executable) :: n in prepared.payloads)
       && w.certify(prepared).Some?
       && RehashAll(w, prepared, m.runtimes).Some? // By `RehashesExactlyWhen` the payloads are enough.
       && IdentityOf(w, m.(runtimes := RehashAll(w, prepared, m.runtimes).value)).Some?
  }

  lemma CertifiesExactlyWhen(w: World, m: Manifest, d: Disk)
    ensures Certify(w, m, d).Some? <==> CanCertify(w, m, d)
  {
    hide IdentityOf;
  }

  /** Hashing again needs a payload of every runtime that is not embedded, and nothing else. */
  lemma RehashesExactlyWhen(w: World, d: Disk, runtimes: Runtimes)
    ensures RehashAll(w, d, runtimes).Some?
            <==> forall n | n in runtimes && !Embedded(runtimes[n].executable) :: n in d.payloads
  {
  }

  ghost predicate CanAssemble(w: World, o: BuildOptions, lockBytes: Bytes, lock: Lock, start: Disk)
    requires LockFits(lock)
  {
    && lock.schema == LOCK_SCHEMA && w.knownPlatform(o.platform) && !o.outputExists
    && (o.status == CERTIFIED ==> o.verify) && (o.status == PREVIEW ==> !o.verify)
    && w.installBase(start).Some?
    && CanInstallFrom(w, o, lock, 0, w.installBase(start).value)
    && var all := InstallFrom(w, o, lock, 0, w.installBase(start).value, map[]);
       && all.Some? && Draft(w, o, lockBytes, all.value.1).Some?
       && (o.verify ==> CanCertify(w, Draft(w, o, lockBytes, all.value.1).value, all.value.0))
  }

  /**
   A build assembles a distribution exactly when its options are allowed, Compute and its recipes install, every runtime
   can be part of it on the tree the ones before it left, its manifest has an identity, and, if it is to be verified,
   certification goes through.
   */
  lemma AssemblesExactlyWhen(w: World, o: BuildOptions, lockBytes: Bytes, lock: Lock, start: Disk)
    requires LockFits(lock)
    ensures Assembled(w, o, lockBytes, lock, start).Some? <==> CanAssemble(w, o, lockBytes, lock, start)
  {
    hide InstallFrom, Draft, Certify, CanCertify, CanInstallFrom;
    if w.installBase(start).Some? {
      var base := w.installBase(start).value;
      assert TreeAt(w, o.platform, lock, 0, base) == base;
      InstallsAllExactlyWhen(w, o, lock, 0, base, map[]);
      var all := InstallFrom(w, o, lock, 0, base, map[]);
      if all.Some? && Draft(w, o, lockBytes, all.value.1).Some? {
        CertifiesExactlyWhen(w, Draft(w, o, lockBytes, all.value.1).value, all.value.0);
      }
    }
  }

  lemma BuildsExactlyWhen(w: World, o: BuildOptions, lockBytes: Bytes, lock: Lock, start: Disk)
    requires LockFits(lock) && w.parseLock(lockBytes) == Some(lock)
    ensures var assembled := Assembled(w, o, lockBytes, lock, start);
            && (assembled.Some? <==> CanAssemble(w, o, lockBytes, lock, start))
            && (assembled.Some? ==> (Genuine(w, assembled.value) <==> Holds(w, o, lock, assembled.value)))
  {
    hide Assembled, CanAssemble, Genuine, Holds;
    AssemblesExactlyWhen(w, o, lockBytes, lock, start);
    if Assembled(w, o, lockBytes, lock, start).Some? {
      AssembledIsGenuineExactlyWhen(w, o, lockBytes, lock, start);
    }
  }

  // ---- What verification finds ------------------------------------------

  /**
   What a manifest vouches for: two genuine distributions with the same manifest have locks with the same digest, the
   same inventory, and, if the locks are the same, the same payload of every runtime that has one. A change to any of
   these in a genuine distribution is therefore found.
   */
  lemma ManifestVouches(w: World, a: Root, b: Root, name: Name)
    requires Genuine(w, a) && Genuine(w, b) && a.manifest == b.manifest
    ensures w.hash(a.lockBytes.value) == w.hash(b.lockBytes.value) == a.manifest.value.lockSha256
    ensures a.inventory == b.inventory == Some(a.manifest.value.runtimes)
    ensures w.installedStarters(a.disk) == w.installedStarters(b.disk)
    ensures var lock := w.parseLock(a.lockBytes.value).value;
            a.lockBytes == b.lockBytes && name in lock.runtimes && !Embedded(lock.runtimes[name].executable)
            && a.manifest.value.runtimes[name].availability != UNAVAILABLE
            ==> TreeHash(w, a.disk, name) == TreeHash(w, b.disk, name) == Some(a.manifest.value.runtimes[name].payloadSha256)
  {
  }

  /** The manifest itself vouches for itself: of two that differ only in their identity, at most one is genuine. */
  lemma IdentityIsFixed(w: World, a: Root, b: Root)
    requires Genuine(w, a) && Genuine(w, b)
    requires a.manifest.value.(id := b.manifest.value.id, certification := b.manifest.value.certification) == b.manifest.value
    ensures a.manifest == b.manifest
  {
  }

  /**
   A genuine distribution says of every runtime of its lock, at the locked version, one of two things: that it is
   supported as the distribution is, without a reason; or, in a preview only, that it is unavailable, with a reason, and
   the lock has no artifact of it for the platform.
   */
  lemma EveryRuntimeIsAccountedFor(w: World, root: Root, name: Name)
    requires Genuine(w, root) && name in w.parseLock(root.lockBytes.value).value.runtimes
    ensures var m, locked := root.manifest.value, w.parseLock(root.lockBytes.value).value.runtimes[name];
            && m.schema == 3 && name in m.runtimes
            && m.runtimes[name].version == locked.version && m.runtimes[name].executable == locked.executable
            && var i := m.runtimes[name];
               if i.reason.None? then i.availability == SUPPORTED && i.support == m.status
               else
                 && i.availability == UNAVAILABLE && i.support == UNSUPPORTED && m.status == PREVIEW
                 && (m.platform in locked.unsupported || (locked.artifacts != map[] && m.platform !in locked.artifacts))
  {
    WordsDiffer();
  }

  /** A certified distribution carries every runtime of its lock: none of them is unavailable. */
  lemma CertifiedIsComplete(w: World, root: Root, name: Name)
    requires Genuine(w, root) && root.manifest.value.status == CERTIFIED
    requires name in w.parseLock(root.lockBytes.value).value.runtimes
    ensures var m, locked := root.manifest.value, w.parseLock(root.lockBytes.value).value.runtimes[name];
            && m.certification == PASS && name in m.runtimes
            && m.runtimes[name].availability == SUPPORTED && m.runtimes[name].version == locked.version
            && (m.platform in locked.artifacts ==> m.runtimes[name].artifactSha256 == locked.artifacts[m.platform].sha256)
            && (!Embedded(locked.executable) ==> w.probe(root.disk, name, locked.executable, locked.version).Some?)
  {
    WordsDiffer();
  }

  // ---- What a build has assembled ---------------------------------------

  /** The manifest entry of a runtime, but for its payload and what it reported. */
  predicate EntryFits(w: World, o: BuildOptions, locked: Locked, i: Installed) {
    && i.version == locked.version && i.executable == locked.executable
    && if Lacks(locked, o.platform)
       then o.status != CERTIFIED && i.availability == UNAVAILABLE && i.support == UNSUPPORTED && i.reason.Some?
       else
         && i.availability == SUPPORTED && i.support == o.status && i.reason.None?
         && w.safe(locked.executable)
         && (o.platform in locked.artifacts ==> locked.artifacts[o.platform].sha256 == i.artifactSha256)
  }

  lemma InstalledEntryFits(w: World, o: BuildOptions, name: Name, locked: Locked, d: Disk)
    ensures var step := InstallOne(w, o, name, locked, d);
            step.Some? ==> EntryFits(w, o, locked, step.value.installed)
  {
  }

  ghost predicate EntriesFit(w: World, o: BuildOptions, lock: Lock, names: set<Name>, runtimes: Runtimes) {
    runtimes.Keys == names && forall n | n in names :: n in lock.runtimes && EntryFits(w, o, lock.runtimes[n], runtimes[n])
  }

  ghost function FirstNames(lock: Lock, k: nat): set<Name>
    requires k <= |lock.names|
  {
    set i | 0 <= i < k :: lock.names[i]
  }

  lemma AddEntry(w: World, o: BuildOptions, lock: Lock, k: nat, runtimes: Runtimes, installed: Installed)
    requires LockFits(lock) && k < |lock.names| && EntriesFit(w, o, lock, FirstNames(lock, k), runtimes)
    requires EntryFits(w, o, lock.runtimes[lock.names[k]], installed)
    ensures EntriesFit(w, o, lock, FirstNames(lock, k + 1), runtimes[lock.names[k] := installed])
  {
    hide EntryFits;
    var name := lock.names[k];
    assert FirstNames(lock, k + 1) == FirstNames(lock, k) + {name};
  }

  lemma AllNames(lock: Lock)
    requires LockFits(lock)
    ensures FirstNames(lock, |lock.names|) == lock.runtimes.Keys
  {
    forall n ensures n in FirstNames(lock, |lock.names|) <==> n in lock.names {
    }
  }

  lemma {:induction false} InstalledEntriesFit(w: World, o: BuildOptions, lock: Lock, k: nat, d: Disk, runtimes: Runtimes)
    requires LockFits(lock) && k <= |lock.names| && EntriesFit(w, o, lock, FirstNames(lock, k), runtimes)
    ensures var all := InstallFrom(w, o, lock, k, d, runtimes);
            all.Some? ==> EntriesFit(w, o, lock, lock.runtimes.Keys, all.value.1)
    decreases |lock.names| - k
  {
    hide InstallOne, EntryFits, EntriesFit, FirstNames;
    if k == |lock.names| {
      AllNames(lock);
    } else {
      var name := lock.names[k];
      var step := InstallOne(w, o, name, lock.runtimes[name], d);
      if step.Some? {
        InstalledEntryFits(w, o, name, lock.runtimes[name], d);
        AddEntry(w, o, lock, k, runtimes, step.value.installed);
        InstalledEntriesFit(w, o, lock, k + 1, step.value.disk, runtimes[name := step.value.installed]);
      }
    }
  }

  lemma InstalledNames(w: World, o: BuildOptions, lock: Lock, start: Disk)
    requires LockFits(lock)
    ensures var all := InstallFrom(w, o, lock, 0, start, map[]);
            all.Some? ==> forall n :: n in lock.names <==> n in all.value.1
  {
    hide InstallFrom, EntryFits;
    NoEntries(w, o, lock);
    InstalledEntriesFit(w, o, lock, 0, start, map[]);
  }

  lemma RehashKeepsEntries(w: World, o: BuildOptions, lock: Lock, d: Disk, runtimes: Runtimes)
    requires EntriesFit(w, o, lock, lock.runtimes.Keys, runtimes) && RehashAll(w, d, runtimes).Some?
    ensures EntriesFit(w, o, lock, lock.runtimes.Keys, RehashAll(w, d, runtimes).value)
  {
  }

  /** The manifest of an assembled distribution. */
  ghost predicate ManifestFits(w: World, o: BuildOptions, lockBytes: Bytes, lock: Lock, m: Manifest) {
    && m.schema == MANIFEST_SCHEMA && m.computeVersion == w.computeVersion && m.platform == o.platform
    && m.profile == BASE && m.status == o.status && m.lockSha256 == w.hash(lockBytes)
    && m.certification == (if o.verify then PASS else if o.status == PREVIEW then PREVIEW else NOT_RUN)
    && m.starters == w.expectedStarters
    && IdentityOf(w, m) == Some(m.id)
    && EntriesFit(w, o, lock, lock.runtimes.Keys, m.runtimes)
  }

  lemma AssembledManifestFits(w: World, o: BuildOptions, lockBytes: Bytes, lock: Lock, start: Disk)
    requires LockFits(lock) && Assembled(w, o, lockBytes, lock, start).Some?
    ensures var root := Assembled(w, o, lockBytes, lock, start).value;
            && root.manifest.Some? && ManifestFits(w, o, lockBytes, lock, root.manifest.value)
            && root.lockBytes == Some(lockBytes) && root.inventory == Some(root.manifest.value.runtimes)
  {
    hide InstallFrom, EntriesFit, RehashAll;
    var base := w.installBase(start).value;
    var (disk, runtimes) := InstallFrom(w, o, lock, 0, base, map[]).value;
    NoEntries(w, o, lock);
    InstalledEntriesFit(w, o, lock, 0, base, map[]);
    if o.verify {
      RehashKeepsEntries(w, o, lock, w.prepare(disk).value, runtimes);
    }
  }

  lemma NoEntries(w: World, o: BuildOptions, lock: Lock)
    ensures EntriesFit(w, o, lock, FirstNames(lock, 0), map[])
  {
  }

  /** Everything the host, the options and the finished tree have to bring. */
  ghost predicate Holds(w: World, o: BuildOptions, lock: Lock, root: Root) {
    && (o.status == CERTIFIED || o.status == PREVIEW)
    && o.platform == w.host
    && w.binaryReports(root.disk, w.computeVersion)
    && w.installedStarters(root.disk) == Some(w.expectedStarters) && w.startersDiscoverable(root.disk)
    && AllPresent(w, o, lock, root)
  }

  /** Every runtime with a payload still has it at the end, and still runs. */
  ghost predicate AllPresent(w: World, o: BuildOptions, lock: Lock, root: Root) {
    && root.manifest.Some?
    && forall n | n in lock.runtimes && n in root.manifest.value.runtimes ::
         !Lacks(lock.runtimes[n], o.platform) && !Embedded(lock.runtimes[n].executable)
         ==> Present(w, root.disk, n, root.manifest.value.runtimes[n], lock.runtimes[n])
  }

  lemma WordsDiffer()
    ensures SUPPORTED != UNAVAILABLE && CERTIFIED != PREVIEW && NOT_RUN != PASS && NOT_RUN != PREVIEW && PASS != PREVIEW
  {
    assert NOT_RUN[0] != PREVIEW[0];
  }

  lemma RuntimeFitsExactlyWhen(w: World, o: BuildOptions, d: Disk, m: Manifest, name: Name, locked: Locked)
    requires name in m.runtimes && EntryFits(w, o, locked, m.runtimes[name])
    requires m.platform == o.platform && m.status == o.status && (o.status == CERTIFIED || o.status == PREVIEW)
    ensures RuntimeFits(w, d, m, name, locked)
            <==> (!Lacks(locked, o.platform) && !Embedded(locked.executable) ==> Present(w, d, name, m.runtimes[name], locked))
  {
    hide Present, Lacks, Embedded;
    WordsDiffer();
  }

  /**
   Whatever a build has assembled verifies exactly when the release status is one of the two there are, the platform
   is the verifier's own, Compute and its starter recipes are in order, and every runtime installed is still there
   and runs. Everything else that is checked holds of every build: the manifest, the lock's digest, the inventory,
   the set of runtimes, each declaration, runtimes that are not available, and the identity.
   */
  lemma AssembledIsGenuineExactlyWhen(w: World, o: BuildOptions, lockBytes: Bytes, lock: Lock, start: Disk)
    requires LockFits(lock) && w.parseLock(lockBytes) == Some(lock) && Assembled(w, o, lockBytes, lock, start).Some?
    ensures var root := Assembled(w, o, lockBytes, lock, start).value;
            Genuine(w, root) <==> Holds(w, o, lock, root)
  {
    var root := Assembled(w, o, lockBytes, lock, start).value;
    AssembledManifestFits(w, o, lockBytes, lock, start);
    assert OptionsFit(w, o, lock);
    hide Assembled, EntryFits, RuntimeFits, Present, Embedded, Lacks;
    WordsDiffer();
    var m := root.manifest.value;
    if o.status == CERTIFIED || o.status == PREVIEW {
      forall n | n in lock.runtimes
        ensures RuntimeFits(w, root.disk, m, n, lock.runtimes[n])
                <==> (!Lacks(lock.runtimes[n], o.platform) && !Embedded(lock.runtimes[n].executable)
                      ==> Present(w, root.disk, n, m.runtimes[n], lock.runtimes[n]))
      {
        RuntimeFitsExactlyWhen(w, o, root.disk, m, n, lock.runtimes[n]);
      }
    }
  }

  // ---- Runtimes that do not touch each other ----------------------------

  /** From one tree to another, a runtime's payload stays and its own executable goes on reporting its version. */
  predicate Kept(w: World, name: Name, locked: Locked, d: Disk, after: Disk) {
    TreeHash(w, after, name) == TreeHash(w, d, name) && KeepsRunning(w, name, locked, d, after)
  }

  predicate KeepsRunning(w: World, name: Name, locked: Locked, d: Disk, after: Disk) {
    w.probe(d, name, locked.executable, locked.version).Some? ==> w.probe(after, name, locked.executable, locked.version).Some?
  }

  /** A runtime that has a payload of its own here. */
  predicate Carried(platform: Platform, locked: Locked) {
    !Lacks(locked, platform) && !Embedded(locked.executable)
  }

  /** In this very build, each runtime's installation, from the `k`-th on, keeps the runtimes installed before it. */
  ghost predicate KeepsEarlier(w: World, o: BuildOptions, lock: Lock, k: nat, d: Disk)
    requires LockFits(lock) && k <= |lock.names|
    decreases |lock.names| - k
  {
    k < |lock.names| ==>
      var name := lock.names[k];
      match InstallOne(w, o, name, lock.runtimes[name], d)
      case Some(step) => KeepsFirst(w, o, lock, k, d, step.disk) && KeepsEarlier(w, o, lock, k + 1, step.disk)
      case None => true
  }

  ghost predicate KeepsFirst(w: World, o: BuildOptions, lock: Lock, k: nat, d: Disk, after: Disk)
    requires LockFits(lock) && k <= |lock.names|
  {
    forall i | 0 <= i < k && Carried(o.platform, lock.runtimes[lock.names[i]]) ::
      Kept(w, lock.names[i], lock.runtimes[lock.names[i]], d, after)
  }

  /** Preparing its certification breaks no runtime, and running it changes no payload either. */
  ghost predicate CertificationKeepsAt(w: World, o: BuildOptions, lock: Lock, d: Disk) {
    w.prepare(d).Some? ==>
      var prepared := w.prepare(d).value;
      forall n | n in lock.runtimes && Carried(o.platform, lock.runtimes[n]) ::
        && KeepsRunning(w, n, lock.runtimes[n], d, prepared)
        && (w.certify(prepared).Some? ==> Kept(w, n, lock.runtimes[n], prepared, w.certify(prepared).value))
  }

  /** No step of the build undoes an earlier one. */
  ghost predicate BuildKeeps(w: World, o: BuildOptions, lock: Lock, start: Disk)
    requires LockFits(lock)
  {
    w.installBase(start).Some? ==>
      var base := w.installBase(start).value;
      && KeepsEarlier(w, o, lock, 0, base)
      && (o.verify && InstallFrom(w, o, lock, 0, base, map[]).Some? ==>
            CertificationKeepsAt(w, o, lock, InstallFrom(w, o, lock, 0, base, map[]).value.0))
  }

  /** A runtime that has a payload has it when it is installed, and runs. */
  lemma InstalledIsPresent(w: World, o: BuildOptions, name: Name, locked: Locked, d: Disk)
    requires !Lacks(locked, o.platform) && !Embedded(locked.executable)
    ensures var step := InstallOne(w, o, name, locked, d);
            step.Some? ==> Present(w, step.value.disk, name, step.value.installed, locked)
  {
  }

  /** The runtimes with a payload among the first `k`. */
  ghost predicate PresentSoFar(w: World, o: BuildOptions, lock: Lock, k: nat, d: Disk, runtimes: Runtimes)
    requires LockFits(lock) && k <= |lock.names|
  {
    forall i | 0 <= i < k ::
      var n := lock.names[i];
      n in runtimes && (!Lacks(lock.runtimes[n], o.platform) && !Embedded(lock.runtimes[n].executable)
                        ==> Present(w, d, n, runtimes[n], lock.runtimes[n]))
  }

  lemma PresentAfterOne(w: World, o: BuildOptions, lock: Lock, k: nat, d: Disk, runtimes: Runtimes)
    requires LockFits(lock) && k < |lock.names| && PresentSoFar(w, o, lock, k, d, runtimes)
    requires var step := InstallOne(w, o, lock.names[k], lock.runtimes[lock.names[k]], d);
             step.Some? ==> KeepsFirst(w, o, lock, k, d, step.value.disk)
    ensures var name := lock.names[k];
            var step := InstallOne(w, o, name, lock.runtimes[name], d);
            step.Some? ==> PresentSoFar(w, o, lock, k + 1, step.value.disk, runtimes[name := step.value.installed])
  {
    hide InstallOne, Lacks, Embedded;
    var name := lock.names[k];
    assert name in lock.names;
    var step := InstallOne(w, o, name, lock.runtimes[name], d);
    if step.Some? {
      var after := runtimes[name := step.value.installed];
      forall i | 0 <= i < k + 1
        ensures var n := lock.names[i];
                n in after && (Carried(o.platform, lock.runtimes[n])
                               ==> Present(w, step.value.disk, n, after[n], lock.runtimes[n]))
      {
        var n := lock.names[i];
        assert n in lock.names;
        if i == k && Carried(o.platform, lock.runtimes[n]) {
          InstalledIsPresent(w, o, n, lock.runtimes[n], d);
        }
      }
    }
  }

  lemma {:induction false} AllInstalledArePresent(w: World, o: BuildOptions, lock: Lock, k: nat, d: Disk, runtimes: Runtimes)
    requires LockFits(lock) && k <= |lock.names| && KeepsEarlier(w, o, lock, k, d) && PresentSoFar(w, o, lock, k, d, runtimes)
    ensures var all := InstallFrom(w, o, lock, k, d, runtimes);
            all.Some? ==> PresentSoFar(w, o, lock, |lock.names|, all.value.0, all.value.1)
    decreases |lock.names| - k
  {
    hide InstallOne, PresentSoFar, KeepsFirst;
    if k < |lock.names| {
      var name := lock.names[k];
      var step := InstallOne(w, o, name, lock.runtimes[name], d);
      PresentAfterOne(w, o, lock, k, d, runtimes);
      if step.Some? {
        AllInstalledArePresent(w, o, lock, k + 1, step.value.disk, runtimes[name := step.value.installed]);
      }
    }
  }

  /** Certification hashes every payload again, so what it leaves is present whatever it added. */
  lemma CertifiedIsPresent(w: World, o: BuildOptions, lock: Lock, m: Manifest, d: Disk, name: Name)
    requires CertificationKeepsAt(w, o, lock, d) && name in lock.runtimes && Carried(o.platform, lock.runtimes[name])
    requires Certify(w, m, d).Some? && name in m.runtimes
    requires m.runtimes[name].executable == lock.runtimes[name].executable
    requires Present(w, d, name, m.runtimes[name], lock.runtimes[name])
    ensures var (after, disk) := Certify(w, m, d).value;
            name in after.runtimes && Present(w, disk, name, after.runtimes[name], lock.runtimes[name])
  {
    hide IdentityOf, Lacks;
  }

  /** Right after the runtimes were installed, every one with a payload has it. */
  lemma InstalledArePresent(w: World, o: BuildOptions, lock: Lock, base: Disk)
    requires LockFits(lock) && KeepsEarlier(w, o, lock, 0, base) && InstallFrom(w, o, lock, 0, base, map[]).Some?
    ensures var (disk, runtimes) := InstallFrom(w, o, lock, 0, base, map[]).value;
            forall n | n in lock.runtimes && Carried(o.platform, lock.runtimes[n]) ::
              && n in runtimes && runtimes[n].executable == lock.runtimes[n].executable
              && Present(w, disk, n, runtimes[n], lock.runtimes[n])
  {
    AllInstalledArePresent(w, o, lock, 0, base, map[]);
    NoEntries(w, o, lock);
    InstalledEntriesFit(w, o, lock, 0, base, map[]);
    hide InstallFrom, KeepsEarlier, Present, Lacks, Embedded;
    forall n | n in lock.runtimes && Carried(o.platform, lock.runtimes[n])
      ensures var (disk, runtimes) := InstallFrom(w, o, lock, 0, base, map[]).value;
              && n in runtimes && runtimes[n].executable == lock.runtimes[n].executable
              && Present(w, disk, n, runtimes[n], lock.runtimes[n])
    {
      assert n in lock.names;
      var i :| 0 <= i < |lock.names| && lock.names[i] == n;
    }
  }

  lemma AssembledIsPresent(w: World, o: BuildOptions, lockBytes: Bytes, lock: Lock, start: Disk)
    requires LockFits(lock) && Assembled(w, o, lockBytes, lock, start).Some? && BuildKeeps(w, o, lock, start)
    ensures AllPresent(w, o, lock, Assembled(w, o, lockBytes, lock, start).value)
  {
    hide InstallFrom, Certify, CertificationKeepsAt, KeepsEarlier, Present, Carried;
    var root := Assembled(w, o, lockBytes, lock, start).value;
    var base := w.installBase(start).value;
    var (disk, runtimes) := InstallFrom(w, o, lock, 0, base, map[]).value;
    InstalledArePresent(w, o, lock, base);
    var draft := Draft(w, o, lockBytes, runtimes).value;
    forall n | n in lock.runtimes && n in root.manifest.value.runtimes && Carried(o.platform, lock.runtimes[n])
      ensures Present(w, root.disk, n, root.manifest.value.runtimes[n], lock.runtimes[n])
    {
      if o.verify {
        CertifiedIsPresent(w, o, lock, draft, disk, n);
      }
    }
    CarriedIsThere(o.platform, lock);
  }

  lemma CarriedIsThere(platform: Platform, lock: Lock)
    ensures forall n | n in lock.runtimes ::
              Carried(platform, lock.runtimes[n]) <==> !Lacks(lock.runtimes[n], platform) && !Embedded(lock.runtimes[n].executable)
  {
  }

  /**
   Builds none of whose steps undoes an earlier one: all payloads are there at the end, so the distribution verifies
   once the platform is the host's and Compute and its starter recipes are in order.
   */
  lemma StableBuildsVerify(w: World, o: BuildOptions, lockBytes: Bytes, lock: Lock, start: Disk)
    requires LockFits(lock) && w.parseLock(lockBytes) == Some(lock) && Assembled(w, o, lockBytes, lock, start).Some?
    requires BuildKeeps(w, o, lock, start)
    ensures var root := Assembled(w, o, lockBytes, lock, start).value;
            && AllPresent(w, o, lock, root)
            && (Genuine(w, root)
                <==> && (o.status == CERTIFIED || o.status == PREVIEW) && o.platform == w.host
                     && w.binaryReports(root.disk, w.computeVersion)
                     && w.installedStarters(root.disk) == Some(w.expectedStarters) && w.startersDiscoverable(root.disk))
  {
    AssembledIsGenuineExactlyWhen(w, o, lockBytes, lock, start);
    AssembledIsPresent(w, o, lockBytes, lock, start);
    hide Assembled, Genuine, AllPresent, BuildKeeps;
  }

  // ---- Destinations that do not meet ------------------------------------

  /** Installing a runtime, or making its executable run, leaves every other with a payload alone, on any tree. */
  ghost predicate Disjoint(w: World, platform: Platform, lock: Lock) {
    forall n, other | n in lock.runtimes && other in lock.runtimes && n != other && Carried(platform, lock.runtimes[other]) ::
      Apart(w, platform, lock.runtimes[n], other, lock.runtimes[other])
  }

  ghost predicate Apart(w: World, platform: Platform, locked: Locked, other: Name, otherLocked: Locked) {
    && (platform in locked.artifacts ==>
          forall d | w.install(d, locked.artifacts[platform]).Some? ::
            Kept(w, other, otherLocked, d, w.install(d, locked.artifacts[platform]).value))
    && (!Embedded(locked.executable) ==>
          forall d :: Kept(w, other, otherLocked, d, w.makeExecutable(d, locked.executable)))
  }

  lemma InstallKeepsOthers(w: World, o: BuildOptions, name: Name, locked: Locked, d: Disk, other: Name, otherLocked: Locked)
    requires Apart(w, o.platform, locked, other, otherLocked)
    ensures var step := InstallOne(w, o, name, locked, d);
            step.Some? ==> Kept(w, other, otherLocked, d, step.value.disk)
  {
    hide TreeHash;
  }

  lemma {:induction false} DisjointKeepsEarlier(w: World, o: BuildOptions, lock: Lock, k: nat, d: Disk)
    requires LockFits(lock) && k <= |lock.names| && Disjoint(w, o.platform, lock)
    ensures KeepsEarlier(w, o, lock, k, d)
    decreases |lock.names| - k
  {
    hide InstallOne, Apart, Kept, Carried;
    if k < |lock.names| {
      var name := lock.names[k];
      assert name in lock.names;
      var step := InstallOne(w, o, name, lock.runtimes[name], d);
      if step.Some? {
        forall i | 0 <= i < k && Carried(o.platform, lock.runtimes[lock.names[i]])
          ensures Kept(w, lock.names[i], lock.runtimes[lock.names[i]], d, step.value.disk)
        {
          var n := lock.names[i];
          assert n in lock.names;
          InstallKeepsOthers(w, o, name, lock.runtimes[name], d, n, lock.runtimes[n]);
        }
        DisjointKeepsEarlier(w, o, lock, k + 1, step.value.disk);
      }
    }
  }

  /** In particular if the runtimes do not touch each other and certification keeps them. */
  lemma DisjointBuildsVerify(w: World, o: BuildOptions, lockBytes: Bytes, lock: Lock, start: Disk)
    requires LockFits(lock) && w.parseLock(lockBytes) == Some(lock) && Assembled(w, o, lockBytes, lock, start).Some?
    requires Disjoint(w, o.platform, lock) && (o.verify ==> forall d :: CertificationKeepsAt(w, o, lock, d))
    ensures var root := Assembled(w, o, lockBytes, lock, start).value;
            && AllPresent(w, o, lock, root)
            && (Genuine(w, root)
                <==> && (o.status == CERTIFIED || o.status == PREVIEW) && o.platform == w.host
                     && w.binaryReports(root.disk, w.computeVersion)
                     && w.installedStarters(root.disk) == Some(w.expectedStarters) && w.startersDiscoverable(root.disk))
  {
    hide Assembled, Genuine, AllPresent, KeepsEarlier, InstallFrom, Disjoint, CertificationKeepsAt;
    if w.installBase(start).Some? {
      DisjointKeepsEarlier(w, o, lock, 0, w.installBase(start).value);
    }
    StableBuildsVerify(w, o, lockBytes, lock, start);
  }

  // ---- Destinations in the lock -----------------------------------------

  const RUNTIMES := "runtimes"

  /** The path is the directory of the runtime or inside it. */
  predicate Within(path: seq<string>, name: Name) {
    [RUNTIMES, name] <= path
  }

  /** The path is inside the directory of the runtime, or the other way round. */
  predicate Meets(path: seq<string>, name: Name) {
    Within(path, name) || path <= [RUNTIMES, name]
  }

  /** Everything of the runtime is installed into its own directory, and its executable is there. */
  predicate StaysHome(w: World, platform: Platform, name: Name, locked: Locked) {
    && (platform in locked.artifacts ==>
          forall p | p in locked.artifacts[platform].destinations :: Within(w.parts(p), name))
    && (!Embedded(locked.executable) ==> Within(w.parts(locked.executable), name))
  }

  /** Installing and making executable touch the trees of the places they are given, and no others. */
  ghost predicate TouchesOnly(w: World) {
    && (forall d, a, n | w.install(d, a).Some? && (forall p | p in a.destinations :: !Meets(w.parts(p), n)) ::
          w.tree(w.install(d, a).value, n) == w.tree(d, n))
    && (forall d, e, n | !Meets(w.parts(e), n) :: w.tree(w.makeExecutable(d, e), n) == w.tree(d, n))
  }

  /** The digest of a runtime's directory, and what an executable in it reports, depend on that directory alone. */
  ghost predicate TreesSuffice(w: World) {
    && (forall d, after, n | w.tree(after, n) == w.tree(d, n) :: TreeHash(w, after, n) == TreeHash(w, d, n))
    && (forall d, after, n, e, v | w.tree(after, n) == w.tree(d, n) && Within(w.parts(e), n) ::
          w.probe(after, n, e, v) == w.probe(d, n, e, v))
  }

  lemma HomesDoNotMeet(path: seq<string>, name: Name, other: Name)
    requires Within(path, name) && name != other
    ensures !Meets(path, other)
  {
    assert path[1] == [RUNTIMES, name][1] && [RUNTIMES, name][1] != [RUNTIMES, other][1];
  }

  lemma HomesAreApart(w: World, platform: Platform, name: Name, locked: Locked, other: Name, otherLocked: Locked)
    requires TouchesOnly(w) && TreesSuffice(w) && name != other
    requires StaysHome(w, platform, name, locked) && StaysHome(w, platform, other, otherLocked) && !Embedded(otherLocked.executable)
    ensures Apart(w, platform, locked, other, otherLocked)
  {
    hide TreeHash, Embedded, Meets, Within;
    if platform in locked.artifacts {
      var a := locked.artifacts[platform];
      forall p | p in a.destinations ensures !Meets(w.parts(p), other) {
        HomesDoNotMeet(w.parts(p), name, other);
      }
      forall d | w.install(d, a).Some? ensures Kept(w, other, otherLocked, d, w.install(d, a).value) {
        assert w.tree(w.install(d, a).value, other) == w.tree(d, other);
      }
    }
    if !Embedded(locked.executable) {
      HomesDoNotMeet(w.parts(locked.executable), name, other);
      forall d ensures Kept(w, other, otherLocked, d, w.makeExecutable(d, locked.executable)) {
        assert w.tree(w.makeExecutable(d, locked.executable), other) == w.tree(d, other);
      }
    }
  }

  /**
   That runtimes do not touch each other can be read off the lock: they do not if each is installed into a directory of
   its own name and has its executable there.
   */
  lemma HomesAreDisjoint(w: World, platform: Platform, lock: Lock)
    requires TouchesOnly(w) && TreesSuffice(w)
    requires forall n | n in lock.runtimes :: StaysHome(w, platform, n, lock.runtimes[n])
    ensures Disjoint(w, platform, lock)
  {
    hide TouchesOnly, TreesSuffice, StaysHome, Apart, Lacks, Embedded;
    forall n, other | n in lock.runtimes && other in lock.runtimes && n != other && Carried(platform, lock.runtimes[other])
      ensures Apart(w, platform, lock.runtimes[n], other, lock.runtimes[other])
    {
      HomesAreApart(w, platform, n, lock.runtimes[n], other, lock.runtimes[other]);
    }
  }
}
