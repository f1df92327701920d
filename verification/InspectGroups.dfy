/**
 The projections of a container: one full, and five partial ones that are validated
 and merged when the full one is not available.
 */
module InspectGroups {
  import opened Wrappers

  /** The keys that occur in projections. */
  datatype Key =
    | SchemaVersion | Id | Name | ImageId | ConfigImage | Labels
    | NetworkMode | Privileged | PidMode | IpcMode | Binds | HostMounts | VolumesFrom | Tmpfs | Devices
    | DeviceRequests | CapAdd | SecurityOpt | ExtraHosts | RestartPolicy
    | Config | HostConfig | NetworkSettings | ExposedPorts | PortBindings | PublishAllPorts | Ports
    | ConfigExposedPorts | PublishedPorts
    | Mounts | Networks | RestartCount | State | Health | Status | Running | Restarting | OomKilled | FailingStreak
    | OtherKey(name: string)

  datatype Value =
    | Null | Bool(b: bool) | Int(i: int) | Float(text: string) | Str(s: string)
    | List(items: seq<Value>) | Obj(fields: map<Key, Value>)

  type Payload = map<Key, Value>

  const SCHEMA_VERSION := 1

  datatype Group = IdentityConfig | HostConfigSecurityTmpfs | Publication | NetworkRuntimeMounts | StateHealth

  const GROUPS := [IdentityConfig, HostConfigSecurityTmpfs, Publication, NetworkRuntimeMounts, StateHealth]

  // ----- projections of a container -----

  /** The values that the templates read from one container. */
  datatype View = View(
    id: string, name: string, image: string, configImage: Value, labels: Value,
    networkMode: Value, privileged: Value, pidMode: Value, ipcMode: Value, binds: Value, hostMounts: Value,
    volumesFrom: Value, tmpfs: Value, devices: Value, deviceRequests: Value, capAdd: Value, securityOpt: Value,
    extraHosts: Value, restartPolicy: Value, exposedPorts: Value, portBindings: Value, publishAllPorts: Value,
    ports: Value, mounts: Value, networks: Value, restartCount: Value, status: Value, running: Value,
    restarting: Value, oomKilled: Value, healthStatus: Value, failingStreak: Value)

  function StateOf(v: View): Value {
    Obj(map[Status := v.status, Running := v.running, Restarting := v.restarting, OomKilled := v.oomKilled])
  }

  function HealthOf(v: View): Value {
    Obj(map[Status := v.healthStatus, FailingStreak := v.failingStreak])
  }

  /** The expression each key of the templates is replaced by. */
  function Rendered(v: View, k: Key): Value {
    match k
    case SchemaVersion => Int(SCHEMA_VERSION)
    case Id => Str(v.id)
    case Name => Str(v.name)
    case ImageId => Str(v.image)
    case ConfigImage => v.configImage
    case Labels => v.labels
    case NetworkMode => v.networkMode
    case Privileged => v.privileged
    case PidMode => v.pidMode
    case IpcMode => v.ipcMode
    case Binds => v.binds
    case HostMounts => v.hostMounts
    case VolumesFrom => v.volumesFrom
    case Tmpfs => v.tmpfs
    case Devices => v.devices
    case DeviceRequests => v.deviceRequests
    case CapAdd => v.capAdd
    case SecurityOpt => v.securityOpt
    case ExtraHosts => v.extraHosts
    case RestartPolicy => v.restartPolicy
    case ConfigExposedPorts => v.exposedPorts
    case PortBindings => v.portBindings
    case PublishAllPorts => v.publishAllPorts
    case PublishedPorts => v.ports
    case Config => Obj(map[ExposedPorts := v.exposedPorts])
    case HostConfig => Obj(map[PortBindings := v.portBindings, PublishAllPorts := v.publishAllPorts])
    case NetworkSettings => Obj(map[Ports := v.ports])
    case Mounts => v.mounts
    case Networks => v.networks
    case RestartCount => v.restartCount
    case State => StateOf(v)
    case Health => HealthOf(v)
    case _ => Null
  }

  function FlatKeys(): set<Key> {
    {SchemaVersion, Id, Name, ImageId, ConfigImage, Labels, NetworkMode, Privileged, PidMode, IpcMode, Binds,
    HostMounts, VolumesFrom, Tmpfs, Devices, DeviceRequests, CapAdd, SecurityOpt, ExtraHosts, ConfigExposedPorts,
    PortBindings, PublishAllPorts, RestartPolicy, Mounts, Networks, PublishedPorts, RestartCount, State, Health}
  }

  function KeysOf(g: Group): set<Key> {
    match g
    case IdentityConfig => {SchemaVersion, Id, Name, ImageId, ConfigImage, Labels}
    case HostConfigSecurityTmpfs =>
      {SchemaVersion, NetworkMode, Privileged, PidMode, IpcMode, Binds, HostMounts, VolumesFrom, Tmpfs, Devices,
       DeviceRequests, CapAdd, SecurityOpt, ExtraHosts, RestartPolicy}
    case Publication => {SchemaVersion, Config, HostConfig, NetworkSettings}
    case NetworkRuntimeMounts => {SchemaVersion, Mounts, Networks}
    case StateHealth => {SchemaVersion, RestartCount, State, Health}
  }

  /** `INSPECT_TEMPLATE` */
  function FullProjection(v: View): Payload {
    map k | k in FlatKeys() :: Rendered(v, k)
  }

  /** The template of one group. */
  function GroupProjection(v: View, g: Group): Payload {
    map k | k in KeysOf(g) :: Rendered(v, k)
  }

  // ----- validation of a group -----

  predicate Closed(v: Value, keys: set<Key>) {
    v.Obj? && v.fields.Keys == keys
  }

  predicate ListOrNull(v: Value) {
    v.Null? || v.List?
  }

  predicate ObjOrNull(v: Value) {
    v.Null? || v.Obj?
  }

  /** `validate_group_payload` */
  predicate ValidGroup(g: Group, p: Payload) {
    && p.Keys == KeysOf(g) && p[SchemaVersion] == Int(SCHEMA_VERSION)
    && match g
       case IdentityConfig =>
         p[Id].Str? && p[Name].Str? && p[ImageId].Str? && p[ConfigImage].Str? && p[Labels].Obj?
       case HostConfigSecurityTmpfs =>
         && p[NetworkMode].Str? && p[Privileged].Bool? && p[PidMode].Str? && p[IpcMode].Str?
         && ListOrNull(p[Binds]) && ListOrNull(p[HostMounts]) && ListOrNull(p[VolumesFrom]) && ObjOrNull(p[Tmpfs])
         && ListOrNull(p[Devices]) && ListOrNull(p[DeviceRequests]) && ListOrNull(p[CapAdd])
         && ListOrNull(p[SecurityOpt]) && ListOrNull(p[ExtraHosts]) && p[RestartPolicy].Obj?
       case Publication =>
         && Closed(p[Config], {ExposedPorts}) && Closed(p[HostConfig], {PortBindings, PublishAllPorts})
         && Closed(p[NetworkSettings], {Ports}) && ObjOrNull(p[Config].fields[ExposedPorts])
         && ObjOrNull(p[HostConfig].fields[PortBindings]) && p[HostConfig].fields[PublishAllPorts].Bool?
         && ObjOrNull(p[NetworkSettings].fields[Ports])
       case NetworkRuntimeMounts => ListOrNull(p[Mounts]) && p[Networks].Obj?
       case StateHealth =>
         && Closed(p[State], {Status, Running, Restarting, OomKilled}) && Closed(p[Health], {Status, FailingStreak})
         && p[RestartCount].Int? && p[State].fields[Status].Str? && p[State].fields[Running].Bool?
         && p[State].fields[Restarting].Bool? && p[State].fields[OomKilled].Bool?
         && p[Health].fields[Status].Str? && p[Health].fields[FailingStreak].Int?
  }

  predicate ExactId(id: string) {
    |id| == 64 && forall i :: 0 <= i < |id| ==> '0' <= id[i] <= '9' || 'a' <= id[i] <= 'f'
  }

  // ----- composition -----

  /** The group a composition fails for; none stands for the composition itself. */
  datatype Composed = Composed(payload: Payload) | Broken(group: Option<Group>)

  /** What a group contributes: the publication group is flattened. */
  function Contribution(g: Group, p: Payload): Payload
    requires ValidGroup(g, p)
  {
    if g == Publication then map[
      ConfigExposedPorts := p[Config].fields[ExposedPorts], PortBindings := p[HostConfig].fields[PortBindings],
      PublishAllPorts := p[HostConfig].fields[PublishAllPorts], PublishedPorts := p[NetworkSettings].fields[Ports]]
    else p - {SchemaVersion}
  }

  /** `_merge_unique`: nothing when a key occurs twice. */
  method MergeUnique(target: Payload, source: Payload) returns (merged: Option<Payload>)
    ensures merged == if target.Keys !! source.Keys then Some(target + source) else None
  {
    if !(target.Keys !! source.Keys) {
      return None;
    }
    return Some(target + source);
  }

  /** The contributions of the first `n` groups. */
  function MergedFirst(payloads: map<Group, Payload>, n: nat): Payload
    requires n <= 5 && forall i :: 0 <= i < n ==> GROUPS[i] in payloads && ValidGroup(GROUPS[i], payloads[GROUPS[i]])
  {
    if n == 0 then map[SchemaVersion := Int(SCHEMA_VERSION)]
    else MergedFirst(payloads, n - 1) + Contribution(GROUPS[n - 1], payloads[GROUPS[n - 1]])
  }

  function ContributedKeys(g: Group): set<Key> {
    if g == Publication then {ConfigExposedPorts, PortBindings, PublishAllPorts, PublishedPorts}
    else KeysOf(g) - {SchemaVersion}
  }

  function KeysOfFirst(n: nat): set<Key>
    requires n <= 5
  {
    if n == 0 then {SchemaVersion} else KeysOfFirst(n - 1) + ContributedKeys(GROUPS[n - 1])
  }

  /** The number of the group that contributes a key; more than five for any other. */
  function Source(k: Key): nat {
    match k
    case SchemaVersion => 0
    case Id => 1 case Name => 1 case ImageId => 1 case ConfigImage => 1 case Labels => 1
    case NetworkMode => 2 case Privileged => 2 case PidMode => 2 case IpcMode => 2 case Binds => 2
    case HostMounts => 2 case VolumesFrom => 2 case Tmpfs => 2 case Devices => 2 case DeviceRequests => 2
    case CapAdd => 2 case SecurityOpt => 2 case ExtraHosts => 2 case RestartPolicy => 2
    case ConfigExposedPorts => 3 case PortBindings => 3 case PublishAllPorts => 3 case PublishedPorts => 3
    case Mounts => 4 case Networks => 4
    case RestartCount => 5 case State => 5 case Health => 5
    case _ => 6
  }

  lemma {:induction false} ContributedKey(i: nat, k: Key)
    requires i < 5
    ensures k in ContributedKeys(GROUPS[i]) <==> Source(k) == i + 1
  {
    IdentityKey(k);
    HostConfigKey(k);
    OtherGroupKey(k);
    hide ContributedKeys, Source;
  }

  lemma {:induction false} IdentityKey(k: Key)
    ensures k in ContributedKeys(IdentityConfig) <==> Source(k) == 1
  {
  }

  lemma {:induction false} HostConfigKey(k: Key)
    ensures k in ContributedKeys(HostConfigSecurityTmpfs) <==> Source(k) == 2
  {
  }

  lemma {:induction false} OtherGroupKey(k: Key)
    ensures k in ContributedKeys(Publication) <==> Source(k) == 3
    ensures k in ContributedKeys(NetworkRuntimeMounts) <==> Source(k) == 4
    ensures k in ContributedKeys(StateHealth) <==> Source(k) == 5
  {
  }

  lemma {:induction false} KeyOfFirst(n: nat, k: Key)
    requires n <= 5
    ensures k in KeysOfFirst(n) <==> Source(k) <= n
    decreases n
  {
    if n > 0 {
      KeyOfFirst(n - 1, k);
      ContributedKey(n - 1, k);
    }
  }

  lemma {:induction false} FlatKey(k: Key)
    ensures k in FlatKeys() <==> Source(k) <= 5
  {
  }

  lemma {:induction false} KeysDisjoint(n: nat)
    requires n < 5
    ensures KeysOfFirst(n) !! ContributedKeys(GROUPS[n])
    ensures KeysOfFirst(5) == FlatKeys()
  {
    hide KeysOfFirst, ContributedKeys, Source, FlatKeys;
    forall k: Key ensures !(k in KeysOfFirst(n) && k in ContributedKeys(GROUPS[n])) {
      KeyOfFirst(n, k);
      ContributedKey(n, k);
    }
    forall k: Key ensures k in KeysOfFirst(5) <==> k in FlatKeys() {
      KeyOfFirst(5, k);
      FlatKey(k);
    }
  }

  lemma {:induction false} MergedKeys(payloads: map<Group, Payload>, n: nat)
    requires n <= 5 && forall i :: 0 <= i < n ==> GROUPS[i] in payloads && ValidGroup(GROUPS[i], payloads[GROUPS[i]])
    ensures MergedFirst(payloads, n).Keys == KeysOfFirst(n)
    decreases n
  {
    if n > 0 {
      MergedKeys(payloads, n - 1);
      ContributionKeys(GROUPS[n - 1], payloads[GROUPS[n - 1]]);
      hide ValidGroup, Contribution, ContributedKeys;
    }
  }

  lemma {:induction false} ContributionKeys(g: Group, p: Payload)
    requires ValidGroup(g, p)
    ensures Contribution(g, p).Keys == ContributedKeys(g)
  {
  }

  predicate AllValid(payloads: map<Group, Payload>) {
    payloads.Keys == {IdentityConfig, HostConfigSecurityTmpfs, Publication, NetworkRuntimeMounts, StateHealth}
    && forall g | g in payloads :: ValidGroup(g, payloads[g])
  }

  /** `compose_group_payloads`, on payloads that were validated before. */
  method Compose(containerId: string, payloads: map<Group, Payload>) returns (c: Composed)
    requires AllValid(payloads)
    ensures
      if ExactId(containerId) && payloads[IdentityConfig][Id] == Str(containerId) then
        c == Composed(MergedFirst(payloads, 5))
      else c == Broken(Some(IdentityConfig))
  {
    hide ValidGroup;
    if !ExactId(containerId) {
      return Broken(Some(IdentityConfig));
    }
    IdentityHasId(payloads[IdentityConfig]);
    if payloads[IdentityConfig][Id] != Str(containerId) {
      return Broken(Some(IdentityConfig));
    }
    var composed: Payload := map[SchemaVersion := Int(SCHEMA_VERSION)];
    GroupsAreAll(payloads);
    hide Contribution, ContributedKeys, KeysOf, FlatKeys;
    for i := 0 to |GROUPS|
      invariant composed == MergedFirst(payloads, i)
    {
      var g := GROUPS[i];
      MergedKeys(payloads, i);
      KeysDisjoint(i);
      ContributionKeys(g, payloads[g]);
      var merged := MergeUnique(composed, Contribution(g, payloads[g]));
      if merged == None {
        return Broken(Some(g));
      }
      composed := merged.value;
    }
    MergedKeys(payloads, 5);
    KeysDisjoint(0);
    if composed.Keys != FlatKeys() {
      return Broken(None);
    }
    return Composed(composed);
  }

  lemma {:induction false} IdentityHasId(p: Payload)
    requires ValidGroup(IdentityConfig, p)
    ensures Id in p
  {
  }

  lemma {:induction false} GroupsAreAll(payloads: map<Group, Payload>)
    requires AllValid(payloads)
    ensures forall i :: 0 <= i < 5 ==> GROUPS[i] in payloads && ValidGroup(GROUPS[i], payloads[GROUPS[i]])
  {
    hide ValidGroup;
  }

  /** Every key of a merge has the value its group contributes. */
  lemma {:induction false} MergedValue(payloads: map<Group, Payload>, n: nat, k: Key)
    requires n <= 5 && forall i :: 0 <= i < n ==> GROUPS[i] in payloads && ValidGroup(GROUPS[i], payloads[GROUPS[i]])
    requires Source(k) <= n
    ensures k in MergedFirst(payloads, n)
    ensures
      var g := Source(k) - 1;
      if g < 0 then MergedFirst(payloads, n)[k] == Int(SCHEMA_VERSION)
      else
        && k in Contribution(GROUPS[g], payloads[GROUPS[g]])
        && MergedFirst(payloads, n)[k] == Contribution(GROUPS[g], payloads[GROUPS[g]])[k]
    decreases n
  {
    hide ValidGroup, Contribution, ContributedKeys, KeysOfFirst;
    MergedKeys(payloads, n);
    KeyOfFirst(n, k);
    if n == 0 {
      OnlySchemaIsFirst(k);
    } else {
      var g := GROUPS[n - 1];
      ContributionKeys(g, payloads[g]);
      ContributedKey(n - 1, k);
      hide Source;
      if Source(k) < n {
        MergedValue(payloads, n - 1, k);
      }
    }
  }

  lemma {:induction false} FullValue(v: View, i: nat, k: Key)
    requires i < 5 && Source(k) == i + 1 && ValidGroup(GROUPS[i], GroupProjection(v, GROUPS[i]))
    ensures k in FullProjection(v) && k in Contribution(GROUPS[i], GroupProjection(v, GROUPS[i]))
    ensures FullProjection(v)[k] == Contribution(GROUPS[i], GroupProjection(v, GROUPS[i]))[k]
  {
    var g := GROUPS[i];
    FlatKey(k);
    ContributedKey(i, k);
    ContributionKeys(g, GroupProjection(v, g));
    if g == Publication {
      PublicationValue(v, k);
    }
    hide ValidGroup;
  }

  lemma {:induction false} PublicationValue(v: View, k: Key)
    requires Source(k) == 3 && ValidGroup(Publication, GroupProjection(v, Publication))
    ensures k in Contribution(Publication, GroupProjection(v, Publication))
    ensures Contribution(Publication, GroupProjection(v, Publication))[k] == Rendered(v, k)
  {
    var p := GroupProjection(v, Publication);
    assert p[Config] == Rendered(v, Config) && p[HostConfig] == Rendered(v, HostConfig)
      && p[NetworkSettings] == Rendered(v, NetworkSettings);
  }

  /** The projections of a container, known to be valid. */
  ghost predicate Mergeable(v: View, ps: map<Group, Payload>) {
    forall i :: 0 <= i < 5 ==>
      GROUPS[i] in ps && ps[GROUPS[i]] == GroupProjection(v, GROUPS[i]) && ValidGroup(GROUPS[i], ps[GROUPS[i]])
  }

  lemma {:induction false} ValueAgrees(v: View, ps: map<Group, Payload>, k: Key)
    requires Mergeable(v, ps) && k in FlatKeys()
    ensures k in MergedFirst(ps, 5) && k in FullProjection(v) && MergedFirst(ps, 5)[k] == FullProjection(v)[k]
  {
    hide ValidGroup, Contribution, GroupProjection, MergedFirst, KeysOfFirst, FlatKeys;
    FlatKey(k);
    MergedValue(ps, 5, k);
    if Source(k) > 0 {
      FullValue(v, Source(k) - 1, k);
    } else {
      OnlySchemaIsFirst(k);
    }
  }

  lemma {:induction false} SameMap(a: Payload, b: Payload, keys: set<Key>)
    requires a.Keys == keys && b.Keys == keys && forall k | k in keys :: a[k] == b[k]
    ensures a == b
  {
  }

  /** Merging the five projections of a container gives its full projection. */
  lemma {:induction false} ProjectionsCompose(v: View, ps: map<Group, Payload>)
    requires Mergeable(v, ps)
    ensures MergedFirst(ps, 5) == FullProjection(v)
  {
    MergedKeys(ps, 5);
    KeysDisjoint(0);
    hide ValidGroup, GroupProjection, MergedFirst, KeysOfFirst, Mergeable, Rendered, FlatKeys;
    assert FullProjection(v).Keys == FlatKeys();
    forall k | k in FlatKeys() ensures MergedFirst(ps, 5)[k] == FullProjection(v)[k] {
      ValueAgrees(v, ps, k);
    }
    hide FullProjection;
    SameMap(MergedFirst(ps, 5), FullProjection(v), FlatKeys());
  }

  lemma {:induction false} OnlySchemaIsFirst(k: Key)
    requires Source(k) == 0
    ensures k == SchemaVersion
  {
  }
}
