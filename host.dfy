/**
 * FileSystemHost: the object that hosts a file system. It holds the volume
 * flag word, the native file system object (`_FileSystemPtr`), the FullContext
 * slots its Create/Open/Close adapters bind and release, and a ghost log of
 * the hooks and native calls its lifecycle operations make.
 */
module Host {
  import opened FaultBoundary
  import opened VolumeFlags
  import opened Lifecycle
  import opened Dispatch

  class FileSystemHost {
    /** The hosted file system (`_FileSystem`), fixed at construction. */
    const fileSystem: FileSystemBase
    /** `_VolumeParams.Flags`. */
    var flags: FlagWord
    /** `_VolumeParams.Prefix`; empty for a disk file system. */
    var prefix: string
    /** `_FileSystemPtr`: the native file system object, or NullHandle. */
    var fileSystemPtr: Handle
    /** The FullContext slots bound by Create and Open. */
    var contexts: map<Slot, FileContext>
    /** Whether the garbage collector will still run the host's finalizer. */
    var finalizerRegistered: bool
    /** The hooks and native calls made so far. */
    ghost var log: seq<Event>

    constructor (fileSystem: FileSystemBase)
      ensures this.fileSystem == fileSystem
      ensures flags == InitialFlags && prefix == [] && fileSystemPtr == NullHandle
      ensures contexts == map[] && finalizerRegistered && log == []
    {
      this.fileSystem := fileSystem;
      flags := InitialFlags;
      prefix := [];
      fileSystemPtr := NullHandle;
      contexts := map[];
      finalizerRegistered := true;
      log := [];
    }

    /** Whether a native file system object is live. */
    predicate Live()
      reads this
    {
      fileSystemPtr != NullHandle
    }

    // ---- Volume parameters ----

    /** The getter of a capability property. */
    predicate Capable(f: Capability)
      reads this
    {
      IsSet(flags, f)
    }

    /** The setter of a capability property: `true` sets the flag, `false` changes nothing. */
    method SetCapability(f: Capability, value: bool)
      modifies this`flags
      ensures flags == Assign(old(flags), f, value)
      ensures value ==> Capable(f)
      ensures !value ==> flags == old(flags)
      ensures forall g :: g != f ==> (IsSet(flags, g) <==> old(IsSet(flags, g)))
    {
      flags := Assign(flags, f, value);
    }

    method SetPrefix(p: string)
      modifies this`prefix
      ensures prefix == p
    {
      prefix := p;
    }

    // ---- Lifecycle ----

    /** Preflight: one native check named after the device class; no state changes. */
    method Preflight(mountPoint: Option<string>, nativeStatus: int32) returns (status: int32)
      modifies this`log
      ensures status == nativeStatus
      ensures log == old(log) + [NativePreflight(DeviceName(prefix), mountPoint)]
    {
      log := log + [NativePreflight(DeviceName(prefix), mountPoint)];
      status := nativeStatus;
    }

    /** A status-returning hook called inside `try`, its fault handed to ExceptionHandler. */
    method CallHook(hook: Event, call: Outcome<int32>) returns (status: int32)
      modifies this`log
      ensures status == HookStatus(fileSystem, call)
      ensures log == old(log) + HookCall(hook, call)
    {
      log := log + [hook];
      match call
      case Ret(s) =>
        status := s;
      case Throw(fault) =>
        log := log + [HandlerHook(fault)];
        status := ExceptionHandler(fileSystem, fault);
    }

    /** A void hook called inside `try`; ExceptionHandler's status for its fault is discarded. */
    method CallVoidHook(hook: Event, call: Outcome<()>)
      modifies this`log
      ensures log == old(log) + HookCall(hook, call)
    {
      log := log + [hook];
      if call.Throw? {
        log := log + [HandlerHook(call.fault)];
        var _ := ExceptionHandler(fileSystem, call.fault);
      }
    }

    /** Mount's stages on the freshly created native object, up to the rollback test. */
    method Serve(req: MountRequest, rep: MountReplies) returns (result: int32)
      modifies this`log
      ensures |old(log)| <= |log| && log == old(log) + log[|old(log)|..]
      ensures (result, log[|old(log)|..]) == ServeStages(fileSystem, fileSystemPtr, req, rep)
    {
      ghost var start := log;
      log := log + [SetUserContext(fileSystemPtr), SetOperationGuardStrategy(fileSystemPtr, GuardStrategy(req.synchronized)),
                    SetDebugLog(fileSystemPtr, req.debugLog),
                    SetMountPointEx(fileSystemPtr, req.mountPoint, req.securityDescriptor)];
      result := rep.setMountPoint;
      if 0 <= result {
        result := CallHook(MountedHook, rep.mounted);
        if 0 <= result {
          log := log + [StartDispatcher(fileSystemPtr, 0)];
          result := rep.startDispatcher;
          if 0 > result {
            CallVoidHook(UnmountedHook, rep.unmounted);
          }
        }
      }
      assert log == start + log[|start|..];
      assert log[|start|..] == ServeStages(fileSystem, fileSystemPtr, req, rep).1;
    }

    /** The properties Mount hands to the native create. */
    function Properties(): (params: Parameters)
      reads this
      ensures params.prefix == prefix && params.flags == flags
    {
      Parameters(prefix, flags)
    }

    /** The setter calls a hook makes on this host, one after another. */
    method RunSetters(updates: seq<PropertyUpdate>)
      modifies this`prefix, this`flags
      ensures Properties() == ApplyAll(old(Properties()), updates)
    {
      var i := 0;
      while i < |updates|
        invariant 0 <= i <= |updates|
        invariant Properties() == ApplyAll(old(Properties()), updates[..i])
      {
        match updates[i] {
          case SetPrefixTo(p) =>
            SetPrefix(p);
          case SetFlagTo(f, value) =>
            SetCapability(f, value);
        }
        assert updates[..i + 1][..i] == updates[..i];
        i := i + 1;
      }
      assert updates[..|updates|] == updates;
    }

    /** The guarded Init hook, with the setter calls it makes on the host. */
    method Init(call: Outcome<int32>, updates: seq<PropertyUpdate>) returns (status: int32)
      modifies this`log, this`prefix, this`flags
      ensures status == HookStatus(fileSystem, call)
      ensures log == old(log) + HookCall(InitHook, call)
      ensures Properties() == ApplyAll(old(Properties()), updates)
    {
      log := log + [InitHook];
      RunSetters(updates);
      match call
      case Ret(s) =>
        status := s;
      case Throw(fault) =>
        log := log + [HandlerHook(fault)];
        status := ExceptionHandler(fileSystem, fault);
    }

    /**
     * Mount, with every hook outcome and native status given in `rep`. The
     * Init hook is handed the host, and the setter calls it makes are run
     * before the native create reads the prefix and the flag word.
     */
    method Mount(req: MountRequest, rep: MountReplies) returns (result: int32)
      modifies this`fileSystemPtr, this`log, this`prefix, this`flags
      ensures var run := MountSpec(fileSystem, old(Properties()), req, rep, old(fileSystemPtr));
        && result == run.status
        && fileSystemPtr == run.handle
        && log == old(log) + run.trace
        && Properties() == run.params
    {
      ghost var run := MountSpec(fileSystem, Properties(), req, rep, fileSystemPtr);
      ghost var create := CreateCall(Properties(), rep);
      result := Init(rep.init, rep.initUpdates);
      if result < 0 {
        return;
      }
      log := log + [NativeCreate(DeviceName(prefix), Properties())];
      assert log == old(log) + HookCall(InitHook, rep.init) + [create];
      result, fileSystemPtr := rep.create.status, rep.create.handle;
      if result < 0 {
        return;
      }
      ghost var created := log;
      result := Serve(req, rep);
      ghost var served := ServeStages(fileSystem, fileSystemPtr, req, rep);
      assert log == created + served.1;
      if 0 > result {
        log := log + [DisposeUserContext(fileSystemPtr), Delete(fileSystemPtr)];
        fileSystemPtr := NullHandle;
        assert run == MountRun(served.0, created[|old(log)|..] + served.1 + [DisposeUserContext(rep.create.handle), Delete(rep.create.handle)], NullHandle, Properties());
      } else {
        assert run == MountRun(served.0, created[|old(log)|..] + served.1, rep.create.handle, Properties());
      }
    }

    /** Dispose(bool): release a live native object; `disposing` is false on the finalizer path. */
    method Dispose(disposing: bool, unmounted: Outcome<()>)
      modifies this`fileSystemPtr, this`log
      ensures fileSystemPtr == NullHandle
      ensures log == old(log) + DisposeTrace(old(fileSystemPtr), disposing, unmounted)
    {
      if fileSystemPtr != NullHandle {
        log := log + [StopDispatcher(fileSystemPtr)];
        if disposing {
          CallVoidHook(UnmountedHook, unmounted);
        }
        log := log + [DisposeUserContext(fileSystemPtr), Delete(fileSystemPtr)];
        fileSystemPtr := NullHandle;
      }
    }

    /**
     * Dispose() as written: Dispose(true), then GC.SuppressFinalize(true),
     * which suppresses the finalizer of a boxed Boolean and leaves the
     * host's own finalizer registered.
     */
    method DisposeHostAsWritten(unmounted: Outcome<()>)
      modifies this`fileSystemPtr, this`log
      ensures fileSystemPtr == NullHandle
      ensures log == old(log) + DisposeTrace(old(fileSystemPtr), true, unmounted)
      ensures finalizerRegistered == old(finalizerRegistered)
    {
      Dispose(true, unmounted);
    }

    /** Dispose() as evidently intended, with GC.SuppressFinalize(this). */
    method DisposeHost(unmounted: Outcome<()>)
      modifies this`fileSystemPtr, this`log, this`finalizerRegistered
      ensures fileSystemPtr == NullHandle && !finalizerRegistered
      ensures log == old(log) + DisposeTrace(old(fileSystemPtr), true, unmounted)
    {
      Dispose(true, unmounted);
      finalizerRegistered := false;
    }

    /** Unmount: Dispose() as written, so the host's finalizer stays registered. */
    method Unmount(unmounted: Outcome<()>)
      modifies this`fileSystemPtr, this`log
      ensures fileSystemPtr == NullHandle
      ensures log == old(log) + DisposeTrace(old(fileSystemPtr), true, unmounted)
      ensures finalizerRegistered == old(finalizerRegistered)
    {
      DisposeHostAsWritten(unmounted);
    }

    /** Unmount over the corrected Dispose(): no finalizer remains. */
    method UnmountCorrected(unmounted: Outcome<()>)
      modifies this`fileSystemPtr, this`log, this`finalizerRegistered
      ensures fileSystemPtr == NullHandle && !finalizerRegistered
      ensures log == old(log) + DisposeTrace(old(fileSystemPtr), true, unmounted)
    {
      DisposeHost(unmounted);
    }

    /** The finalizer, ~FileSystemHost: Dispose(false), which never calls a hook. */
    method Finalize()
      requires finalizerRegistered
      modifies this`fileSystemPtr, this`log, this`finalizerRegistered
      ensures fileSystemPtr == NullHandle && !finalizerRegistered
      ensures log == old(log) + DisposeTrace(old(fileSystemPtr), false, Ret(()))
      ensures UnmountedHook !in log[|old(log)|..]
    {
      Dispose(false, Ret(()));
      finalizerRegistered := false;
    }

    /** The context bound to a slot, if any. */
    function ContextOf(slot: Slot): (r: Option<FileContext>)
      reads this
      ensures r.Some? <==> slot in contexts
      ensures r.Some? ==> r.value == contexts[slot]
    {
      if slot in contexts then Some(contexts[slot]) else None
    }

    /**
     * GetFullContext on a slot: the pair Create or Open bound there, or
     * `unbound`, whatever the native slot holds when nothing was bound (as
     * after a Create fault that ExceptionHandler maps to a success).
     */
    function Resolve(slot: Slot, unbound: FileContext): (context: FileContext)
      reads this
      ensures slot in contexts ==> context == contexts[slot]
      ensures slot !in contexts ==> context == unbound
    {
      if slot in contexts then contexts[slot] else unbound
    }

    /** MountPoint(): the native object's mount point while one is live, null otherwise. */
    function MountPoint(nativeMountPoint: Handle -> string): (r: Option<string>)
      reads this
      ensures r.None? <==> !Live()
      ensures r.Some? ==> r.value == nativeMountPoint(fileSystemPtr)
    {
      if fileSystemPtr != NullHandle then Some(nativeMountPoint(fileSystemPtr)) else None
    }

    // ---- Dispatch adapters that use the context slots ----

    /**
     * Create and Open after their hook: bind and name only on a success
     * status. `leftOnFault` is the FileInfo the hook had written through its
     * out parameter when it threw.
     */
    method CompleteOpen(slot: Slot, call: Outcome<OpenReply>, info: OpenFileInfo, leftOnFault: Record)
      returns (status: int32, info': OpenFileInfo)
      modifies this`contexts
      ensures status == OpenStatus(fileSystem, call)
      ensures info' == OpenInfoAfter(info, call, leftOnFault)
      ensures contexts == BindOnSuccess(old(contexts), slot, call)
    {
      info' := info;
      match call
      case Throw(fault) =>
        info' := info'.(fileInfo := leftOnFault);
        status := ExceptionHandler(fileSystem, fault);
      case Ret(reply) =>
        info' := info'.(fileInfo := reply.fileInfo);
        status := reply.status;
        if 0 <= status {
          if reply.normalizedName.Some? {
            info' := info'.(normalizedName := reply.normalizedName);
          }
          contexts := contexts[slot := FileContext(reply.fileNode, reply.fileDesc)];
        }
    }

    /** The Create adapter. */
    method Create(slot: Slot, request: CreateRequest, info: OpenFileInfo,
                  hook: CreateRequest -> Outcome<OpenReply>, leftOnFault: Record)
      returns (status: int32, info': OpenFileInfo)
      modifies this`contexts
      ensures status == OpenStatus(fileSystem, hook(request))
      ensures info' == OpenInfoAfter(info, hook(request), leftOnFault)
      ensures contexts == BindOnSuccess(old(contexts), slot, hook(request))
    {
      status, info' := CompleteOpen(slot, hook(request), info, leftOnFault);
    }

    /** The Open adapter. */
    method Open(slot: Slot, request: OpenRequest, info: OpenFileInfo,
                hook: OpenRequest -> Outcome<OpenReply>, leftOnFault: Record)
      returns (status: int32, info': OpenFileInfo)
      modifies this`contexts
      ensures status == OpenStatus(fileSystem, hook(request))
      ensures info' == OpenInfoAfter(info, hook(request), leftOnFault)
      ensures contexts == BindOnSuccess(old(contexts), slot, hook(request))
    {
      status, info' := CompleteOpen(slot, hook(request), info, leftOnFault);
    }

    /**
     * The Close adapter: the binding is disposed inside the `try`, after the
     * hook, so a Close hook that throws leaves the slot bound. The status
     * ExceptionHandler gives for that fault is discarded; it is returned here
     * only to show it.
     */
    method Close(slot: Slot, unbound: FileContext, hook: FileContext -> Outcome<()>) returns (discarded: Option<int32>)
      modifies this`contexts
      ensures var call := hook(old(Resolve(slot, unbound)));
        && contexts == (if call.Ret? then old(contexts) - {slot} else old(contexts))
        && (discarded.Some? <==> call.Throw?)
        && (call.Throw? ==> discarded.value == ExceptionHandler(fileSystem, call.fault))
    {
      var context := Resolve(slot, unbound);
      match hook(context)
      case Ret(_) =>
        contexts := contexts - {slot};
        discarded := None;
      case Throw(fault) =>
        discarded := Some(ExceptionHandler(fileSystem, fault));
    }

    /**
     * A uniform adapter, end to end: resolve the file's context when the
     * operation has one, call the hook with it, apply the fault boundary.
     */
    function CallPassThrough(op: PassThroughOp, slot: Slot, unbound: FileContext,
                             hook: Option<FileContext> -> Outcome<Reply<Outs>>): (r: Reply<Outs>)
      reads this
      ensures var call := hook(if TakesContext(op) then Some(Resolve(slot, unbound)) else None);
        && (call.Ret? ==> r == call.value)
        && (call.Throw? ==> r == Reply(ExceptionHandler(fileSystem, call.fault), ZeroedOuts(OutParams(op))))
    {
      PassThrough(fileSystem, op, hook(if TakesContext(op) then Some(Resolve(slot, unbound)) else None))
    }
  }

  /**
   * A file's context lives from a successful Create to a Close whose hook
   * returns: a Write in between resolves the pair Create bound, and a later
   * Open of the same slot binds the new pair with nothing left of the old one.
   */
  method ContextLifetime(fileSystem: FileSystemBase, slot: Slot, request: CreateRequest, first: OpenReply,
                         write: Option<FileContext> -> Outcome<Reply<Outs>>,
                         reopen: OpenRequest, second: OpenReply)
    returns (afterCreate: Option<FileContext>, written: Reply<Outs>, afterClose: Option<FileContext>,
             afterOpen: Option<FileContext>)
    requires Succeeded(first.status) && Succeeded(second.status)
    ensures afterCreate == Some(FileContext(first.fileNode, first.fileDesc))
    ensures written == PassThrough(fileSystem, Write, write(afterCreate))
    ensures afterClose == None
    ensures afterOpen == Some(FileContext(second.fileNode, second.fileDesc))
  {
    var host := new FileSystemHost(fileSystem);
    var info := OpenFileInfo(Zeroed, None);
    var status, info' := host.Create(slot, request, info, _ => Ret(first), Zeroed);
    afterCreate := host.ContextOf(slot);
    written := host.CallPassThrough(Write, slot, FileContext(0, 0), write);
    var _ := host.Close(slot, FileContext(0, 0), _ => Ret(()));
    afterClose := host.ContextOf(slot);
    status, info' := host.Open(slot, reopen, info, _ => Ret(second), Zeroed);
    afterOpen := host.ContextOf(slot);
  }

  /** A Close hook that throws leaves the context bound: the source releases only on a normal return. */
  method CloseFaultKeepsBinding(fileSystem: FileSystemBase, slot: Slot, request: CreateRequest,
                                reply: OpenReply, fault: Fault)
    returns (afterClose: Option<FileContext>)
    requires Succeeded(reply.status)
    ensures afterClose == Some(FileContext(reply.fileNode, reply.fileDesc))
  {
    var host := new FileSystemHost(fileSystem);
    var status, info := host.Create(slot, request, OpenFileInfo(Zeroed, None), _ => Ret(reply), Zeroed);
    var _ := host.Close(slot, FileContext(0, 0), _ => Throw(fault));
    afterClose := host.ContextOf(slot);
  }

  /**
   * A Create hook that throws, under an ExceptionHandler that maps the fault
   * to a success, reports success and binds nothing; Close still runs its
   * hook on whatever the unbound slot reads, and leaves the slot unbound.
   */
  method FaultMappedToSuccessBindsNothing(fileSystem: FileSystemBase, slot: Slot, request: CreateRequest,
                                          fault: Fault, unbound: FileContext)
    returns (status: int32, afterCreate: Option<FileContext>, closedWith: FileContext, afterClose: Option<FileContext>)
    requires fileSystem.exceptionHandler(fault) == Handled(STATUS_SUCCESS)
    ensures Succeeded(status) && afterCreate == None
    ensures closedWith == unbound && afterClose == None
  {
    var host := new FileSystemHost(fileSystem);
    var info;
    status, info := host.Create(slot, request, OpenFileInfo(Zeroed, None), _ => Throw(fault), Zeroed);
    afterCreate := host.ContextOf(slot);
    closedWith := host.Resolve(slot, unbound);
    var _ := host.Close(slot, unbound, _ => Ret(()));
    afterClose := host.ContextOf(slot);
  }

  /**
   * Mounting with every stage succeeding leaves the host live; unmounting
   * releases it, and a second unmount makes no call at all.
   */
  method MountThenUnmountTwice(fileSystem: FileSystemBase, req: MountRequest, rep: MountReplies)
    returns (mountStatus: int32, liveAfterMount: bool, liveAfterUnmount: bool, ghost secondUnmountCalls: seq<Event>)
    requires rep.init.Ret? && Succeeded(rep.init.value)
    requires Succeeded(rep.create.status) && rep.create.handle != NullHandle
    requires Succeeded(rep.setMountPoint) && rep.mounted.Ret? && Succeeded(rep.mounted.value)
    requires Succeeded(rep.startDispatcher)
    ensures mountStatus == rep.startDispatcher
    ensures liveAfterMount && !liveAfterUnmount && secondUnmountCalls == []
  {
    var host := new FileSystemHost(fileSystem);
    MountRollsBack(fileSystem, host.Properties(), req, rep, NullHandle);
    mountStatus := host.Mount(req, rep);
    liveAfterMount := host.Live();
    host.Unmount(Ret(()));
    liveAfterUnmount := host.Live();
    ghost var before := |host.log|;
    host.Unmount(Ret(()));
    secondUnmountCalls := host.log[before..];
  }

  /**
   * A Mount that fails at any stage leaves no native object live, provided a
   * failing native create writes a null handle.
   */
  method FailedMountLeavesNothingLive(fileSystem: FileSystemBase, req: MountRequest, rep: MountReplies)
    returns (status: int32, live: bool)
    requires rep.create.status < 0 ==> rep.create.handle == NullHandle
    ensures status < 0 ==> !live
    ensures status >= 0 ==> live == (rep.create.handle != NullHandle)
  {
    var host := new FileSystemHost(fileSystem);
    if HookStatus(fileSystem, rep.init) >= 0 && rep.create.status >= 0 {
      MountRollsBack(fileSystem, host.Properties(), req, rep, NullHandle);
    }
    status := host.Mount(req, rep);
    live := host.Live();
  }

  /**
   * Dispose() as written leaves the finalizer registered; it later runs
   * Dispose(false), which is a no-op only because the handle is already
   * null. Dispose() as intended leaves no finalizer to run.
   */
  method FinalizerSurvivesDispose(fileSystem: FileSystemBase, unmounted: Outcome<()>)
    returns (registeredAsWritten: bool, registeredAsIntended: bool, ghost finalizerCalls: seq<Event>)
    ensures registeredAsWritten && !registeredAsIntended && finalizerCalls == []
  {
    var asWritten := new FileSystemHost(fileSystem);
    asWritten.DisposeHostAsWritten(unmounted);
    registeredAsWritten := asWritten.finalizerRegistered;
    ghost var before := |asWritten.log|;
    asWritten.Finalize();
    finalizerCalls := asWritten.log[before..];
    var intended := new FileSystemHost(fileSystem);
    intended.DisposeHost(unmounted);
    registeredAsIntended := intended.finalizerRegistered;
  }
}
