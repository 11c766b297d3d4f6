/**
 The container driver over an in-memory Docker store: a container is created and started all or
 nothing, and found again by a name derived from the instance.
 */
module Containers {
  import opened Results
  import opened Texts

  datatype ContainerState = Created | Running | Exited | OtherState

  /** `options` stands for everything the container was created with. */
  datatype Container = Container(id: Text, name: Text, options: int, state: ContainerState, exitCode: int, logLines: nat)

  datatype Store = Store(containers: map<Text, Container>, nameIndex: map<Text, Text>)

  const PREFIX := "lightai-"

  /** The name keeps at most twelve characters of the instance id. */
  function ShortId(instance: string): string {
    if |instance| > 12 then instance[..12] else instance
  }

  function ContainerName(instance: string): Text {
    Text(PREFIX + ShortId(instance))
  }

  /** Generated ids are cut from UUIDs. */
  predicate IdShape(id: Text) {
    |id.chars| == 12 && forall c | c in id.chars :: '0' <= c <= '9' || 'a' <= c <= 'f' || c == '-'
  }

  /** Containers and names point at each other. */
  ghost predicate Consistent(s: Store) {
    && (forall id | id in s.containers :: IdShape(id) && s.containers[id].id == id
          && s.containers[id].name in s.nameIndex && s.nameIndex[s.containers[id].name] == id)
    && (forall n | n in s.nameIndex :: !IdShape(n) && s.nameIndex[n] in s.containers && s.containers[s.nameIndex[n]].name == n)
  }

  lemma NamesAreNotIds(instance: string)
    ensures !IdShape(ContainerName(instance))
  {
    assert ContainerName(instance).chars[0] == 'l' && 'l' in ContainerName(instance).chars;
  }

  // ------------------------------------------------------------------------------------------
  // What the driver does to the store
  // ------------------------------------------------------------------------------------------

  /** A container's id, or failing that the id its name stands for. */
  function Resolve(s: Store, target: Text): Option<Text> {
    if target in s.containers then Some(target)
    else if target in s.nameIndex && s.nameIndex[target] in s.containers then Some(s.nameIndex[target])
    else None
  }

  function Removed(s: Store, id: Text): Store {
    if id in s.containers then Store(s.containers - {id}, s.nameIndex - {s.containers[id].name}) else s
  }

  function Stopped(s: Store, instance: string): Store {
    match Resolve(s, ContainerName(instance))
    case None => s
    case Some(id) => Removed(s, id)
  }

  /** What a start meets: the container changing state behind the driver's back, and the health check's answer. */
  datatype Surroundings = Surroundings(startError: bool, afterStart: Option<(ContainerState, int)>, healthy: bool)

  datatype Spec = Spec(instance: string, docker: bool, options: int)

  predicate StartSucceeds(s: Store, spec: Spec, x: Surroundings) {
    && spec.docker && ContainerName(spec.instance) !in s.nameIndex && !x.startError && x.healthy
    && (x.afterStart.Some? ==> x.afterStart.value.0 == Running)
  }

  function Started(s: Store, spec: Spec, x: Surroundings, id: Text): Store {
    if StartSucceeds(s, spec, x) then
      var name := ContainerName(spec.instance);
      var exitCode := if x.afterStart.Some? then x.afterStart.value.1 else 0;
      Store(s.containers[id := Container(id, name, spec.options, Running, exitCode, 0)], s.nameIndex[name := id])
    else s
  }

  // ------------------------------------------------------------------------------------------
  // Laws
  // ------------------------------------------------------------------------------------------

  lemma SameStore(a: Store, b: Store)
    requires forall k :: k in a.containers <==> k in b.containers
    requires forall k | k in a.containers :: a.containers[k] == b.containers[k]
    requires forall n :: n in a.nameIndex <==> n in b.nameIndex
    requires forall n | n in a.nameIndex :: a.nameIndex[n] == b.nameIndex[n]
    ensures a == b
  {
    assert a.containers == b.containers;
    assert a.nameIndex == b.nameIndex;
  }

  lemma StepsKeepConsistent(s: Store, spec: Spec, x: Surroundings, id: Text, instance: string)
    requires Consistent(s) && IdShape(id) && id !in s.containers
    ensures Consistent(Started(s, spec, x, id)) && Consistent(Stopped(s, instance))
  {
    NamesAreNotIds(spec.instance);
  }

  /** A stop after a start that succeeded gives back the store, whatever was in it. */
  lemma StopUndoesStart(s: Store, spec: Spec, x: Surroundings, id: Text)
    requires Consistent(s) && IdShape(id) && id !in s.containers && StartSucceeds(s, spec, x)
    ensures Stopped(Started(s, spec, x, id), spec.instance) == s
  {
    var t := Started(s, spec, x, id);
    var name := ContainerName(spec.instance);
    NamesAreNotIds(spec.instance);
    assert Resolve(t, name) == Some(id);
    SameStore(Removed(t, id), s);
  }

  lemma StopIsIdempotent(s: Store, instance: string)
    requires Consistent(s)
    ensures Stopped(Stopped(s, instance), instance) == Stopped(s, instance)
    ensures ContainerName(instance) !in Stopped(s, instance).nameIndex
  {
    NamesAreNotIds(instance);
  }

  /** The first twelve characters, or all where there are fewer. */
  function Twelve(s: string): string {
    s[..if |s| < 12 then |s| else 12]
  }

  /**
   A start goes through exactly for a Docker runtime whose name no container has, when Docker starts it, it is
   still running afterwards and the health check passes; it then adds one running container under that name.
   */
  lemma StartOutcome(s: Store, spec: Spec, x: Surroundings, id: Text)
    ensures var name := Text("lightai-" + Twelve(spec.instance)); var r := Started(s, spec, x, id);
      if spec.docker && name !in s.nameIndex && !x.startError && x.healthy && (x.afterStart == None || x.afterStart.value.0 == Running) then
        && StartSucceeds(s, spec, x) && r.nameIndex == s.nameIndex[name := id]
        && r.containers == s.containers[id := Container(id, name, spec.options, Running, if x.afterStart == None then 0 else x.afterStart.value.1, 0)]
      else !StartSucceeds(s, spec, x) && r == s
  {
    assert ContainerName(spec.instance) == Text("lightai-" + Twelve(spec.instance));
  }

  /** A stop removes the container that has the instance's name, with the name, and nothing else. */
  lemma StopOutcome(s: Store, instance: string)
    requires Consistent(s)
    ensures var name := Text("lightai-" + Twelve(instance));
      Stopped(s, instance) == if name in s.nameIndex then Store(s.containers - {s.nameIndex[name]}, s.nameIndex - {name}) else s
  {
    NamesAreNotIds(instance);
    assert ContainerName(instance) == Text("lightai-" + Twelve(instance));
  }

  /** Stopping an instance removes the container another one started exactly when their ids start alike. */
  lemma StopHitsOtherIff(s: Store, spec: Spec, x: Surroundings, id: Text, other: string)
    requires Consistent(s) && IdShape(id) && id !in s.containers && StartSucceeds(s, spec, x)
    ensures id !in Stopped(Started(s, spec, x, id), other).containers <==> Twelve(other) == Twelve(spec.instance)
  {
    var t := Started(s, spec, x, id);
    NamesAreNotIds(spec.instance);
    NamesAreNotIds(other);
    StepsKeepConsistent(s, spec, x, id, other);
    var a, b := ContainerName(other), ContainerName(spec.instance);
    assert a.chars[|PREFIX|..] == ShortId(other) && b.chars[|PREFIX|..] == ShortId(spec.instance);
    assert a == b <==> ShortId(other) == ShortId(spec.instance);
    assert ShortId(other) == Twelve(other) && ShortId(spec.instance) == Twelve(spec.instance);
  }

  /** While a container has the name, a start fails for every instance whose id starts alike. */
  lemma NameBlocksStart(s: Store, spec: Spec, x: Surroundings, id: Text, other: Spec, y: Surroundings)
    requires StartSucceeds(s, spec, x) && Twelve(other.instance) == Twelve(spec.instance)
    ensures !StartSucceeds(Started(s, spec, x, id), other, y)
  {
    assert ContainerName(other.instance) == ContainerName(spec.instance);
  }

  // ------------------------------------------------------------------------------------------
  // The in-memory client
  // ------------------------------------------------------------------------------------------

  datatype DockerError = NameInUse | NotFound | CannotStart | StartFailed

  class FakeDockerClient {
    var containers: map<Text, Container>
    var nameIndex: map<Text, Text>
    var startError: bool
    var afterStart: Option<(ContainerState, int)>

    ghost function Contents(): Store
      reads this
    {
      Store(containers, nameIndex)
    }

    constructor ()
      ensures Contents() == Store(map[], map[]) && Consistent(Contents()) && !startError && afterStart == None
    {
      containers, nameIndex, startError, afterStart := map[], map[], false, None;
    }

    method ContainerCreate(name: Text, options: int, id: Text) returns (r: Result<Text, DockerError>)
      requires Consistent(Contents()) && IdShape(id) && id !in containers && !IdShape(name) && name != NO_TEXT
      modifies this`containers, this`nameIndex
      ensures Consistent(Contents())
      ensures if name in old(nameIndex) then r == Err(NameInUse) && Contents() == old(Contents())
              else r == Ok(id) && containers == old(containers)[id := Container(id, name, options, Created, 0, 0)]
                   && nameIndex == old(nameIndex)[name := id]
    {
      if name in nameIndex {
        return Err(NameInUse);
      }
      containers := containers[id := Container(id, name, options, Created, 0, 0)];
      nameIndex := nameIndex[name := id];
      r := Ok(id);
    }

    method SetState(id: Text, state: ContainerState, exitCode: int)
      modifies this`containers
      ensures containers == if id in old(containers)
                            then old(containers)[id := old(containers)[id].(state := state, exitCode := exitCode)] else old(containers)
    {
      if id in containers {
        containers := containers[id := containers[id].(state := state, exitCode := exitCode)];
      }
    }

    method ContainerStart(id: Text) returns (r: Result<(), DockerError>)
      modifies this`containers
      ensures id !in old(containers) ==> r == Err(NotFound) && containers == old(containers)
      ensures id in old(containers) && old(containers)[id].state != Created ==> r == Err(CannotStart) && containers == old(containers)
      ensures id in old(containers) && old(containers)[id].state == Created ==>
                if startError then r == Err(StartFailed) && containers == old(containers)[id := old(containers)[id].(exitCode := 128)]
                else r == Ok(()) && containers == old(containers)[id := old(containers)[id].(
                       state := if afterStart.Some? then afterStart.value.0 else Running,
                       exitCode := if afterStart.Some? then afterStart.value.1 else old(containers)[id].exitCode)]
    {
      if id !in containers {
        return Err(NotFound);
      }
      if containers[id].state != Created {
        return Err(CannotStart);
      }
      if startError {
        containers := containers[id := containers[id].(exitCode := 128)];
        return Err(StartFailed);
      }
      containers := containers[id := containers[id].(state := Running)];
      if afterStart.Some? {
        SetState(id, afterStart.value.0, afterStart.value.1);
      }
      r := Ok(());
    }

    method ContainerStop(id: Text) returns (r: Result<(), DockerError>)
      modifies this`containers
      ensures if id !in old(containers) then r == Err(NotFound) && containers == old(containers)
              else r == Ok(()) && containers == if old(containers)[id].state == Running
                then old(containers)[id := old(containers)[id].(state := Exited, exitCode := 0)] else old(containers)
    {
      if id !in containers {
        return Err(NotFound);
      }
      if containers[id].state == Running {
        containers := containers[id := containers[id].(state := Exited, exitCode := 0)];
      }
      r := Ok(());
    }

    method ContainerInspect(target: Text) returns (r: Result<Container, DockerError>)
      ensures match Resolve(Contents(), target)
        case None => r == Err(NotFound)
        case Some(id) => id in containers && r == Ok(containers[id])
    {
      if target in containers {
        return Ok(containers[target]);
      }
      if target in nameIndex && nameIndex[target] in containers {
        return Ok(containers[nameIndex[target]]);
      }
      r := Err(NotFound);
    }

    /** Reading the logs of a running container adds a line to them. */
    method ContainerLogs(target: Text)
      modifies this`containers
      ensures containers == match Resolve(old(Contents()), target)
        case None => old(containers)
        case Some(id) =>
          if old(containers)[id].state == Running
          then old(containers)[id := old(containers)[id].(logLines := old(containers)[id].logLines + 1)] else old(containers)
    {
      var id := target;
      if id !in containers {
        if target !in nameIndex || nameIndex[target] !in containers {
          return;
        }
        id := nameIndex[target];
      }
      if containers[id].state == Running {
        containers := containers[id := containers[id].(logLines := containers[id].logLines + 1)];
      }
    }

    method ContainerRemove(id: Text)
      modifies this`containers, this`nameIndex
      ensures Contents() == Removed(old(Contents()), id)
    {
      if id !in containers {
        return;
      }
      nameIndex := nameIndex - {containers[id].name};
      containers := containers - {id};
    }
  }

  // ------------------------------------------------------------------------------------------
  // The driver
  // ------------------------------------------------------------------------------------------

  datatype Failure = UnsupportedRuntime | CreateFailed | NotStarted | NotRunning | Unhealthy | StopFailed

  datatype Instance = Instance(instance: string, container: Text, name: Text)

  class DockerRuntimeDriver {
    const client: FakeDockerClient

    constructor (client: FakeDockerClient)
      ensures this.client == client
    {
      this.client := client;
    }

    ghost function Around(healthy: bool): Surroundings
      reads client
    {
      Surroundings(client.startError, client.afterStart, healthy)
    }

    /** The container just created, and nothing else, may differ from `before`. */
    ghost predicate OnlyAdded(before: Store, id: Text, name: Text)
      reads client
    {
      && id !in before.containers && name !in before.nameIndex
      && id in client.containers && client.containers[id].name == name
      && client.containers == before.containers[id := client.containers[id]]
      && client.nameIndex == before.nameIndex[name := id]
    }

    /** What is left to do with a started container that turned out bad: look at it, read its logs, remove it. */
    method Discard(ghost before: Store, id: Text, name: Text)
      requires Consistent(before) && IdShape(id) && !IdShape(name) && OnlyAdded(before, id, name)
      modifies client`containers, client`nameIndex
      ensures client.Contents() == before
    {
      var info := client.ContainerInspect(name);
      if info.Ok? {
        client.ContainerLogs(id);
      }
      client.ContainerLogs(id);
      client.ContainerRemove(id);
      SameStore(client.Contents(), before);
    }

    method Start(spec: Spec, id: Text, healthy: bool) returns (r: Result<Instance, Failure>)
      requires Consistent(client.Contents()) && IdShape(id) && id !in client.containers
      modifies client`containers, client`nameIndex
      ensures r.Ok? <==> StartSucceeds(old(client.Contents()), spec, old(Around(healthy)))
      ensures client.Contents() == Started(old(client.Contents()), spec, old(Around(healthy)), id)
      ensures r.Ok? ==> r.value == Instance(spec.instance, id, ContainerName(spec.instance))
    {
      if !spec.docker {
        return Err(UnsupportedRuntime);
      }
      ghost var before := client.Contents();
      var name := ContainerName(spec.instance);
      NamesAreNotIds(spec.instance);
      var created := client.ContainerCreate(name, spec.options, id);
      if created.Err? {
        return Err(CreateFailed);
      }
      var started := client.ContainerStart(id);
      assert OnlyAdded(before, id, name);
      if started.Err? {
        Discard(before, id, name);
        return Err(NotStarted);
      }
      var info := client.ContainerInspect(id);
      if info.Ok? && info.value.state != Running {
        Discard(before, id, name);
        return Err(NotRunning);
      }
      if !healthy {
        Discard(before, id, name);
        return Err(Unhealthy);
      }
      r := Ok(Instance(spec.instance, id, name));
    }

    /** A missing container counts as stopped. */
    method Stop(instance: string) returns (r: Result<(), Failure>)
      requires Consistent(client.Contents())
      modifies client`containers, client`nameIndex
      ensures r.Ok? && client.Contents() == Stopped(old(client.Contents()), instance)
      ensures Consistent(client.Contents())
    {
      var name := ContainerName(instance);
      NamesAreNotIds(instance);
      ghost var before := client.Contents();
      var info := client.ContainerInspect(name);
      if info.Err? {
        return Ok(());
      }
      var stopped := client.ContainerStop(info.value.id);
      if stopped.Err? {
        return Err(StopFailed);
      }
      client.ContainerRemove(info.value.id);
      SameStore(client.Contents(), Stopped(before, instance));
      r := Ok(());
    }
  }
}
