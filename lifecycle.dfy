/**
 * The lifecycle of a hosted volume as a trace of the hooks and native calls
 * that Mount and Dispose(bool) make. Native calls are opaque steps whose
 * statuses are given in a MountReplies record; hooks are Outcomes.
 * MountSpec and DisposeTrace are what the methods of
 * Host.FileSystemHost are proved against.
 */
module Lifecycle {
  import opened FaultBoundary
  import opened VolumeFlags

  /** The native file system object (`_FileSystemPtr`); 0 is IntPtr.Zero. */
  type Handle = nat
  const NullHandle: Handle := 0

  /** The host properties Mount reads: the network prefix and the capability flag word. */
  datatype Parameters = Parameters(prefix: string, flags: FlagWord)

  /**
   * One public property setter that a hook calls on the host it is given
   * (Init, Mounted and Unmounted all receive the host itself).
   */
  datatype PropertyUpdate = SetPrefixTo(prefix: string) | SetFlagTo(flag: Capability, value: bool)

  /** The effect of one setter call: the Prefix setter replaces, a capability setter ORs its bit in. */
  function Apply(params: Parameters, update: PropertyUpdate): Parameters {
    match update
    case SetPrefixTo(p) => params.(prefix := p)
    case SetFlagTo(f, value) => params.(flags := Assign(params.flags, f, value))
  }

  /** A run of setter calls, applied in order. */
  function ApplyAll(params: Parameters, updates: seq<PropertyUpdate>): Parameters
    decreases |updates|
  {
    if updates == [] then params
    else Apply(ApplyAll(params, updates[..|updates| - 1]), updates[|updates| - 1])
  }

  /** The capability flags that some setter call in `updates` sets to true. */
  function FlagsRaised(updates: seq<PropertyUpdate>): set<VolumeFlag> {
    set i | 0 <= i < |updates| && updates[i].SetFlagTo? && updates[i].value :: updates[i].flag
  }

  /** Setter calls only add flags: the word ends as the old word plus every flag set to true. */
  lemma {:induction false} ApplyAllRaisesFlags(params: Parameters, updates: seq<PropertyUpdate>)
    ensures ApplyAll(params, updates).flags == params.flags + FlagsRaised(updates)
    decreases |updates|
  {
    if updates != [] {
      var n := |updates| - 1;
      var front := updates[..n];
      ApplyAllRaisesFlags(params, front);
      var last: set<VolumeFlag> := if updates[n].SetFlagTo? && updates[n].value then {updates[n].flag} else {};
      assert FlagsRaised(updates) == FlagsRaised(front) + last by {
        forall g | g in FlagsRaised(updates) ensures g in FlagsRaised(front) + last {
          var i :| 0 <= i < |updates| && updates[i].SetFlagTo? && updates[i].value && updates[i].flag == g;
          if i < n {
            assert front[i] == updates[i];
          }
        }
        forall g | g in FlagsRaised(front) ensures g in FlagsRaised(updates) {
          var i :| 0 <= i < |front| && front[i].SetFlagTo? && front[i].value && front[i].flag == g;
          assert updates[i] == front[i];
        }
      }
    }
  }

  /** A set flag stays set through any run of setter calls: assigning `false` never clears it. */
  lemma FlagsNeverCleared(params: Parameters, updates: seq<PropertyUpdate>, f: VolumeFlag)
    requires IsSet(params.flags, f)
    ensures IsSet(ApplyAll(params, updates).flags, f)
  {
    ApplyAllRaisesFlags(params, updates);
  }

  /** The prefix after a run of setter calls is the one the last Prefix setter gave, or the old one if none was called. */
  lemma {:induction false} LastPrefixWins(params: Parameters, updates: seq<PropertyUpdate>)
    ensures (forall i :: 0 <= i < |updates| ==> !updates[i].SetPrefixTo?) ==>
              ApplyAll(params, updates).prefix == params.prefix
    ensures forall k :: 0 <= k < |updates| && updates[k].SetPrefixTo? &&
                        (forall j :: k < j < |updates| ==> !updates[j].SetPrefixTo?) ==>
              ApplyAll(params, updates).prefix == updates[k].prefix
    decreases |updates|
  {
    if updates != [] {
      var n := |updates| - 1;
      var front := updates[..n];
      LastPrefixWins(params, front);
      var prefix := ApplyAll(params, updates).prefix;
      if updates[n].SetPrefixTo? {
        assert prefix == updates[n].prefix;
      } else {
        assert prefix == ApplyAll(params, front).prefix;
        forall k | 0 <= k < |updates| && updates[k].SetPrefixTo? &&
                   (forall j :: k < j < |updates| ==> !updates[j].SetPrefixTo?)
          ensures prefix == updates[k].prefix
        {
          assert k < n && front[k] == updates[k];
          assert forall j :: k < j < |front| ==> front[j] == updates[j];
        }
        if forall i :: 0 <= i < |updates| ==> !updates[i].SetPrefixTo? {
          assert forall i :: 0 <= i < |front| ==> front[i] == updates[i];
        }
      }
    }
  }

  /** One hook or native call that a lifecycle operation makes. */
  datatype Event =
    | InitHook
    | MountedHook
    | UnmountedHook
      /** The hosted file system's ExceptionHandler, consulted for a fault. */
    | HandlerHook(fault: Fault)
    | NativePreflight(deviceName: string, mountPoint: Option<string>)
      /** FspFileSystemCreate, given the device class and the volume parameters by reference. */
    | NativeCreate(deviceName: string, params: Parameters)
    | SetUserContext(handle: Handle)
    | SetOperationGuardStrategy(handle: Handle, strategy: uint32)
    | SetDebugLog(handle: Handle, debugLog: uint32)
    | SetMountPointEx(handle: Handle, mountPoint: Option<string>, securityDescriptor: Option<Bytes>)
    | StartDispatcher(handle: Handle, threadCount: uint32)
    | StopDispatcher(handle: Handle)
    | DisposeUserContext(handle: Handle)
    | Delete(handle: Handle)

  /** The device class Preflight and Mount name: a disk unless a network prefix is set. */
  function DeviceName(prefix: string): string {
    if |prefix| == 0 then "WinFsp.Disk" else "WinFsp.Net"
  }

  const FSP_FILE_SYSTEM_OPERATION_GUARD_STRATEGY_FINE: uint32 := 0
  const FSP_FILE_SYSTEM_OPERATION_GUARD_STRATEGY_COARSE: uint32 := 1

  function GuardStrategy(synchronized: bool): uint32 {
    if synchronized then FSP_FILE_SYSTEM_OPERATION_GUARD_STRATEGY_COARSE
    else FSP_FILE_SYSTEM_OPERATION_GUARD_STRATEGY_FINE
  }

  /** The arguments of Mount. */
  datatype MountRequest = MountRequest(
    mountPoint: Option<string>,
    securityDescriptor: Option<Bytes>,
    synchronized: bool,
    debugLog: uint32)

  /** What FspFileSystemCreate returns: a status and the handle written to its out parameter. */
  datatype CreateReply = CreateReply(status: int32, handle: Handle)

  /** The outcome of every hook and native call Mount may make, in call order. */
  datatype MountReplies = MountReplies(
    init: Outcome<int32>,
      /** The setter calls the Init hook makes on the host before it returns or throws. */
    initUpdates: seq<PropertyUpdate>,
    create: CreateReply,
    setMountPoint: int32,
    mounted: Outcome<int32>,
    startDispatcher: int32,
    unmounted: Outcome<()>)

  /** Mount's result, the calls it made, the handle it leaves in `_FileSystemPtr`, and the host's properties after it. */
  datatype MountRun = MountRun(status: int32, trace: seq<Event>, handle: Handle, params: Parameters)

  /** A hook call inside `try`, followed by the ExceptionHandler call its fault leads to. */
  function HookCall<T>(hook: Event, call: Outcome<T>): seq<Event> {
    [hook] + (if call.Throw? then [HandlerHook(call.fault)] else [])
  }

  /** The calls Mount makes on a freshly created native object `h`, up to Mount's rollback test. */
  function ServeStages(fileSystem: FileSystemBase, h: Handle, req: MountRequest, rep: MountReplies): (int32, seq<Event>)
  {
    var setup := [SetUserContext(h), SetOperationGuardStrategy(h, GuardStrategy(req.synchronized)),
                  SetDebugLog(h, req.debugLog), SetMountPointEx(h, req.mountPoint, req.securityDescriptor)];
    if rep.setMountPoint < 0 then (rep.setMountPoint, setup)
    else
      var mounted := HookStatus(fileSystem, rep.mounted);
      var afterMounted := setup + HookCall(MountedHook, rep.mounted);
      if mounted < 0 then (mounted, afterMounted)
      else
        var started := afterMounted + [StartDispatcher(h, 0)];
        if rep.startDispatcher < 0 then (rep.startDispatcher, started + HookCall(UnmountedHook, rep.unmounted))
        else (rep.startDispatcher, started)
  }

  /** The native create as Mount issues it: the device class and parameters the Init hook left. */
  function CreateCall(params: Parameters, rep: MountReplies): Event {
    var p := ApplyAll(params, rep.initUpdates);
    NativeCreate(DeviceName(p.prefix), p)
  }

  /** FileSystemHost.Mount, stage by stage, on a host whose properties were `params` and whose handle was `before`. */
  function MountSpec(fileSystem: FileSystemBase, params: Parameters, req: MountRequest,
                     rep: MountReplies, before: Handle): MountRun
  {
    var init := HookStatus(fileSystem, rep.init);
    var initTrace := HookCall(InitHook, rep.init);
    var p := ApplyAll(params, rep.initUpdates);
    if init < 0 then MountRun(init, initTrace, before, p)
    else
      var h := rep.create.handle;
      var created := initTrace + [CreateCall(params, rep)];
      if rep.create.status < 0 then MountRun(rep.create.status, created, h, p)
      else
        var (status, served) := ServeStages(fileSystem, h, req, rep);
        if status < 0 then MountRun(status, created + served + [DisposeUserContext(h), Delete(h)], NullHandle, p)
        else MountRun(status, created + served, h, p)
  }

  /**
   * The native create sees the device class and flag word as the Init hook
   * left them, and those are the host's properties when Mount returns.
   */
  lemma CreateSeesInitSetters(fileSystem: FileSystemBase, params: Parameters, req: MountRequest,
                              rep: MountReplies, before: Handle)
    requires HookStatus(fileSystem, rep.init) >= 0
    ensures var run := MountSpec(fileSystem, params, req, rep, before);
      var p := ApplyAll(params, rep.initUpdates);
      && run.trace[|HookCall(InitHook, rep.init)|] == NativeCreate(DeviceName(p.prefix), p)
      && p.flags == params.flags + FlagsRaised(rep.initUpdates)
      && run.params == p
  {
    ApplyAllRaisesFlags(params, rep.initUpdates);
  }

  /** The statuses of Mount's five stages, each as if reached. */
  function StageStatuses(fileSystem: FileSystemBase, rep: MountReplies): (s: seq<int32>)
    ensures |s| == 5
  {
    [HookStatus(fileSystem, rep.init), rep.create.status, rep.setMountPoint,
     HookStatus(fileSystem, rep.mounted), rep.startDispatcher]
  }

  /** The first negative status of a non-empty run of stages, or the last status if none fails. */
  function FirstFailure(statuses: seq<int32>): (r: int32)
    requires |statuses| > 0
    ensures r in statuses
    ensures r < 0 <==> exists i :: 0 <= i < |statuses| && statuses[i] < 0
    ensures r < 0 ==> exists i :: 0 <= i < |statuses| && statuses[i] == r &&
                                  forall j :: 0 <= j < i ==> statuses[j] >= 0
    ensures r >= 0 ==> r == statuses[|statuses| - 1]
  {
    if |statuses| == 1 || statuses[0] < 0 then statuses[0]
    else
      var r := FirstFailure(statuses[1..]);
      assert forall i :: 1 <= i < |statuses| ==> statuses[i] == statuses[1..][i - 1];
      r
  }

  /** Mount returns the first failing stage's status, and the dispatcher's status when no stage fails. */
  lemma MountReturnsFirstFailure(fileSystem: FileSystemBase, params: Parameters, req: MountRequest,
                                 rep: MountReplies, before: Handle)
    ensures MountSpec(fileSystem, params, req, rep, before).status == FirstFailure(StageStatuses(fileSystem, rep))
  {
    var s := StageStatuses(fileSystem, rep);
    var s1, s2, s3 := s[1..], s[2..], s[3..];
    assert s1[1..] == s2 && s2[1..] == s3 && s3[1..] == [s[4]];
    assert FirstFailure(s3) == if s[3] < 0 then s[3] else s[4];
    assert FirstFailure(s2) == if s[2] < 0 then s[2] else FirstFailure(s3);
    assert FirstFailure(s1) == if s[1] < 0 then s[1] else FirstFailure(s2);
    assert FirstFailure(s) == if s[0] < 0 then s[0] else FirstFailure(s1);
  }

  /** Whether Mount got as far as creating the native object. */
  predicate Created(fileSystem: FileSystemBase, rep: MountReplies) {
    HookStatus(fileSystem, rep.init) >= 0 && rep.create.status >= 0
  }

  /** A failing Init hook stops Mount before any native call, with the host's handle untouched. */
  lemma InitFailureStopsMount(fileSystem: FileSystemBase, params: Parameters, req: MountRequest,
                              rep: MountReplies, before: Handle)
    requires HookStatus(fileSystem, rep.init) < 0
    ensures var run := MountSpec(fileSystem, params, req, rep, before);
      && run.status == HookStatus(fileSystem, rep.init)
      && run.handle == before
      && run.trace == HookCall(InitHook, rep.init)
      && forall e :: e in run.trace ==> !e.NativeCreate?
  {
  }

  /**
   * Once the native object exists, a failing Mount disposes the user context
   * and deletes that object, in that order and last, and clears the handle;
   * a succeeding Mount keeps the object live and deletes nothing.
   */
  lemma MountRollsBack(fileSystem: FileSystemBase, params: Parameters, req: MountRequest,
                       rep: MountReplies, before: Handle)
    requires Created(fileSystem, rep)
    ensures var run := MountSpec(fileSystem, params, req, rep, before);
      var h := rep.create.handle;
      && (run.status < 0 ==>
            && run.handle == NullHandle
            && |run.trace| >= 2
            && run.trace[|run.trace| - 2..] == [DisposeUserContext(h), Delete(h)])
      && (run.status >= 0 ==> run.handle == h && Delete(h) !in run.trace)
  {
    var (status, served) := ServeStages(fileSystem, rep.create.handle, req, rep);
    assert forall e :: e in served ==> !e.Delete?;
  }

  /** A failing native create returns its status and leaves the handle it wrote. */
  lemma CreateFailureStopsMount(fileSystem: FileSystemBase, params: Parameters, req: MountRequest,
                                rep: MountReplies, before: Handle)
    requires HookStatus(fileSystem, rep.init) >= 0 && rep.create.status < 0
    ensures var run := MountSpec(fileSystem, params, req, rep, before);
      && run.status == rep.create.status
      && run.handle == rep.create.handle
      && run.trace == HookCall(InitHook, rep.init) + [CreateCall(params, rep)]
  {
  }

  /** `first` occurs in `trace` strictly before `second`. */
  ghost predicate Before(trace: seq<Event>, first: Event, second: Event) {
    exists i, j :: 0 <= i < j < |trace| && trace[i] == first && trace[j] == second
  }

  /** The Mounted hook runs exactly when the mount point was set with a non-negative status, and after that call. */
  lemma MountedOnlyAfterMountPoint(fileSystem: FileSystemBase, params: Parameters, req: MountRequest,
                                   rep: MountReplies, before: Handle)
    ensures var run := MountSpec(fileSystem, params, req, rep, before);
      && (MountedHook in run.trace <==> Created(fileSystem, rep) && rep.setMountPoint >= 0)
      && (MountedHook in run.trace ==>
            Before(run.trace, SetMountPointEx(rep.create.handle, req.mountPoint, req.securityDescriptor), MountedHook))
  {
    var run := MountSpec(fileSystem, params, req, rep, before);
    var h := rep.create.handle;
    var initTrace := HookCall(InitHook, rep.init);
    if Created(fileSystem, rep) {
      var created := initTrace + [CreateCall(params, rep)];
      var setup := [SetUserContext(h), SetOperationGuardStrategy(h, GuardStrategy(req.synchronized)),
                    SetDebugLog(h, req.debugLog), SetMountPointEx(h, req.mountPoint, req.securityDescriptor)];
      if rep.setMountPoint >= 0 {
        var k := |created|;
        assert run.trace[k + 3] == SetMountPointEx(h, req.mountPoint, req.securityDescriptor);
        assert run.trace[k + 4] == MountedHook;
      } else {
        assert run.trace == created + setup + [DisposeUserContext(h), Delete(h)];
      }
    }
  }

  /** The dispatcher is started exactly when Mounted returned a non-negative status, and after that hook. */
  lemma DispatcherOnlyAfterMounted(fileSystem: FileSystemBase, params: Parameters, req: MountRequest,
                                   rep: MountReplies, before: Handle)
    ensures var run := MountSpec(fileSystem, params, req, rep, before);
      var start := StartDispatcher(rep.create.handle, 0);
      && (start in run.trace <==>
            Created(fileSystem, rep) && rep.setMountPoint >= 0 && HookStatus(fileSystem, rep.mounted) >= 0)
      && (start in run.trace ==> Before(run.trace, MountedHook, start))
  {
    var run := MountSpec(fileSystem, params, req, rep, before);
    var h := rep.create.handle;
    var start := StartDispatcher(h, 0);
    var initTrace := HookCall(InitHook, rep.init);
    if Created(fileSystem, rep) {
      var created := initTrace + [CreateCall(params, rep)];
      var setup := [SetUserContext(h), SetOperationGuardStrategy(h, GuardStrategy(req.synchronized)),
                    SetDebugLog(h, req.debugLog), SetMountPointEx(h, req.mountPoint, req.securityDescriptor)];
      if rep.setMountPoint >= 0 {
        var afterMounted := setup + HookCall(MountedHook, rep.mounted);
        var k := |created|;
        assert run.trace[k + 4] == MountedHook;
        if HookStatus(fileSystem, rep.mounted) >= 0 {
          assert run.trace[k + |afterMounted|] == start;
        } else {
          assert run.trace == created + afterMounted + [DisposeUserContext(h), Delete(h)];
        }
      } else {
        assert run.trace == created + setup + [DisposeUserContext(h), Delete(h)];
      }
    } else if HookStatus(fileSystem, rep.init) >= 0 {
      assert run.trace == initTrace + [CreateCall(params, rep)];
    }
  }

  /** During Mount the Unmounted hook runs exactly when starting the dispatcher failed. */
  lemma UnmountedOnlyOnStartFailure(fileSystem: FileSystemBase, params: Parameters, req: MountRequest,
                                    rep: MountReplies, before: Handle)
    ensures var run := MountSpec(fileSystem, params, req, rep, before);
      UnmountedHook in run.trace <==>
        && Created(fileSystem, rep) && rep.setMountPoint >= 0
        && HookStatus(fileSystem, rep.mounted) >= 0 && rep.startDispatcher < 0
  {
    var run := MountSpec(fileSystem, params, req, rep, before);
    var h := rep.create.handle;
    var initTrace := HookCall(InitHook, rep.init);
    if Created(fileSystem, rep) {
      var created := initTrace + [CreateCall(params, rep)];
      var setup := [SetUserContext(h), SetOperationGuardStrategy(h, GuardStrategy(req.synchronized)),
                    SetDebugLog(h, req.debugLog), SetMountPointEx(h, req.mountPoint, req.securityDescriptor)];
      if rep.setMountPoint >= 0 {
        var afterMounted := setup + HookCall(MountedHook, rep.mounted);
        if HookStatus(fileSystem, rep.mounted) >= 0 {
          var started := afterMounted + [StartDispatcher(h, 0)];
          if rep.startDispatcher < 0 {
            assert run.trace[|created| + |started|] == UnmountedHook;
          } else {
            assert run.trace == created + started;
          }
        } else {
          assert run.trace == created + afterMounted + [DisposeUserContext(h), Delete(h)];
        }
      } else {
        assert run.trace == created + setup + [DisposeUserContext(h), Delete(h)];
      }
    } else if HookStatus(fileSystem, rep.init) >= 0 {
      assert run.trace == initTrace + [CreateCall(params, rep)];
    }
  }

  /** The guard strategy set on the native object is coarse (1) iff Mount was asked to synchronize, fine (0) otherwise. */
  lemma GuardStrategyFollowsSynchronized(fileSystem: FileSystemBase, params: Parameters, req: MountRequest,
                                         rep: MountReplies, before: Handle)
    ensures var run := MountSpec(fileSystem, params, req, rep, before);
      && (Created(fileSystem, rep) ==>
            SetOperationGuardStrategy(rep.create.handle, if req.synchronized then 1 else 0) in run.trace)
      && forall e :: e in run.trace && e.SetOperationGuardStrategy? ==>
            (e.strategy == 1 <==> req.synchronized) && (e.strategy == 0 <==> !req.synchronized)
  {
    var run := MountSpec(fileSystem, params, req, rep, before);
    var h := rep.create.handle;
    var strategy := SetOperationGuardStrategy(h, GuardStrategy(req.synchronized));
    var created := HookCall(InitHook, rep.init) + [CreateCall(params, rep)];
    assert !CreateCall(params, rep).SetOperationGuardStrategy?;
    if Created(fileSystem, rep) {
      var served := ServeStages(fileSystem, h, req, rep).1;
      assert forall e :: e in served && e.SetOperationGuardStrategy? ==> e == strategy;
      assert run.trace[|created| + 1] == strategy;
      assert run.trace == created + served || run.trace == created + served + [DisposeUserContext(h), Delete(h)];
    } else {
      assert run.trace == HookCall(InitHook, rep.init) || run.trace == created;
    }
  }

  /**
   * What Dispose(bool) calls on a host whose handle is `h`: nothing when `h`
   * is null; otherwise stop the dispatcher, run Unmounted on the explicit
   * path only (its fault goes to the handler), then release.
   */
  function DisposeTrace(h: Handle, disposing: bool, unmounted: Outcome<()>): seq<Event> {
    if h == NullHandle then []
    else [StopDispatcher(h)] + (if disposing then HookCall(UnmountedHook, unmounted) else [])
         + [DisposeUserContext(h), Delete(h)]
  }

  /**
   * Disposing a live host stops the dispatcher first and releases last,
   * whatever the Unmounted hook does; the hook runs iff the call is the
   * explicit one; disposing a host that is not live does nothing.
   */
  lemma DisposeReleasesUnconditionally(h: Handle, disposing: bool, unmounted: Outcome<()>)
    ensures var t := DisposeTrace(h, disposing, unmounted);
      && (h == NullHandle ==> t == [])
      && (h != NullHandle ==>
            && |t| >= 3 && t[0] == StopDispatcher(h)
            && t[|t| - 2..] == [DisposeUserContext(h), Delete(h)]
            && (UnmountedHook in t <==> disposing))
  {
  }
}
