# WinFsp FileSystemHost, modelled in Dafny

WinFsp's .NET layer hosts a user-mode file system through `FileSystemHost`.
The class sits on the native callback boundary:

- It holds the volume parameters and the native file system object (`_FileSystemPtr`).
- It mounts and tears down that object.
- Its static adapters turn every native callback into a call on the user's `FileSystemBase`.

Almost everything the class does is a foreign call. This model turns every such call into data:

- A user hook's outcome is an `Outcome<T>`, either `Ret(value)` or `Throw(fault)`.
- A native call's result is an `int32` status supplied with the operation.
- The user's `ExceptionHandler` override is a function from faults to `Handled(status)` or `HandlerThrows`.

What is left is the host's own decision logic. It is modelled and proved in five modules:

- `FaultBoundary` (fault_boundary.dfy) covers the status codes and `ExceptionHandler`. It also has the `try`/`catch` arm every adapter shares: a fault becomes the handler's status, and out-records reset to their defaults.
- `VolumeFlags` (volume_flags.dfy) is the capability flag word. Its setters only ever OR a bit in.
- `Lifecycle` (lifecycle.dfy) has the trace specifications of `Mount` and `Dispose(bool)`:
  - `MountSpec` and `DisposeTrace`, two functions that compute the ordered list of hooks and native calls each operation makes;
  - the lemmas about stage order, rollback and first failure.
- `Dispatch` (dispatch.dfy) holds the adapters' decisions:
  - the `STATUS_REPARSE` bypass in `GetSecurityByName`;
  - binding on success in `Create` and `Open`;
  - copy on success in `GetSecurity` and `GetReparsePoint`;
  - the security-information mask in `SetSecurity`;
  - the uniform pass-through adapters.
- `Host` (host.dfy) is the class `FileSystemHost`:
  - Its fields are the flag word, the prefix, the native handle, the FullContext slots (a map from slot to node and descriptor) and whether the finalizer is still registered.
  - A ghost event log records each call in order.
  - `Mount`, `Dispose`, `Create`, `Open` and `Close` are imperative methods. Each is proved against the functions above.

One consequence of the code's structure is easy to miss. The Close adapter calls `Api.DisposeFullContext` inside the `try`, after the Close hook (src/dotnet/FileSystemHost.cs:584-596). So a Close hook that throws leaves the binding in place. The model follows the code: see `Host.FileSystemHost.Close` and `Host.CloseFaultKeepsBinding`.

## Model

| member | source | states |
|---|---|---|
| FaultBoundary.Unchecked | src/dotnet/FileSystemHost.cs:384 | `unchecked((Int32)u)` keeps the 32 bits: the result is congruent to `u` modulo 2^32, and negative exactly when the top bit is set |
| FaultBoundary.UnexpectedIoErrorIsFailure | src/dotnet/FileSystemHost.cs:384 | STATUS_UNEXPECTED_IO_ERROR is 0xC00000E9 read as a signed value, so it is a failure status |
| FaultBoundary.ExceptionHandler | src/dotnet/FileSystemHost.cs:374-386 | the user handler's status when it returns, exactly STATUS_UNEXPECTED_IO_ERROR when it throws |
| FaultBoundary.FaultSucceedsOnlyByHandlerVerdict | src/dotnet/FileSystemHost.cs:374-386 | a fault turns into a success status only if the user handler itself returned that status |
| FaultBoundary.HookStatus | src/dotnet/FileSystemHost.cs:271-279 | a guarded status hook yields its own status, or the ExceptionHandler status for its fault |
| FaultBoundary.Guard | src/dotnet/FileSystemHost.cs:392-401 | an adapter's reply passes through unchanged, business errors included; a fault yields the handler's status with the out-record reset to its default |
| FaultBoundary.FaultIndistinguishableFromDeclaredError | src/dotnet/FileSystemHost.cs:397-401 | a faulting hook and a hook that returns the handler's status with default outputs give the native side the same reply |
| VolumeFlags.Assign | src/dotnet/FileSystemHost.cs:131-210 | a setter given true makes its getter true; given false it leaves the word unchanged; no other flag moves; the word only grows |
| VolumeFlags.InitialCapabilitiesClear | src/dotnet/FileSystemHost.cs:41-45 | a new host's word is exactly UmFileContextIsFullContext, so every capability reads false |
| Lifecycle.ApplyAllRaisesFlags | src/dotnet/FileSystemHost.cs:131-210 | setter calls made by a hook only add flags: the word ends as the old word plus every flag set to true |
| Lifecycle.FlagsNeverCleared | src/dotnet/FileSystemHost.cs:131-210 | a set flag stays set through any run of setter calls |
| Lifecycle.LastPrefixWins | src/dotnet/FileSystemHost.cs:214-218 | after a run of setter calls the prefix is the last one the Prefix setter was given, or the old one if it was not called |
| Lifecycle.CreateSeesInitSetters | src/dotnet/FileSystemHost.cs:271-283 | the native create is named and parameterised by the prefix and flag word as the Init hook left them; those are the host's properties afterwards |
| Lifecycle.FirstFailure | src/dotnet/FileSystemHost.cs:265-324 | the result is the first negative status of the run, with every earlier one non-negative, or the last status when none is negative |
| Lifecycle.MountReturnsFirstFailure | src/dotnet/FileSystemHost.cs:265-324 | Mount returns the first negative status among Init, create, set mount point, Mounted and start dispatcher, or the dispatcher's status when none fails |
| Lifecycle.InitFailureStopsMount | src/dotnet/FileSystemHost.cs:271-280 | a failing Init, returned or mapped from a fault, is returned; no native create happens and the handle stays as it was |
| Lifecycle.CreateFailureStopsMount | src/dotnet/FileSystemHost.cs:281-285 | a failing native create is returned with no further call |
| Lifecycle.MountRollsBack | src/dotnet/FileSystemHost.cs:317-323 | after a successful create: a negative result ends with DisposeUserContext then Delete and clears the handle; a non-negative one keeps the object live and deletes nothing |
| Lifecycle.MountedOnlyAfterMountPoint | src/dotnet/FileSystemHost.cs:291-302 | the Mounted hook runs if and only if the mount point was set with a non-negative status, and only after that call |
| Lifecycle.DispatcherOnlyAfterMounted | src/dotnet/FileSystemHost.cs:303-305 | the dispatcher starts if and only if Mounted returned a non-negative status, and only after Mounted |
| Lifecycle.UnmountedOnlyOnStartFailure | src/dotnet/FileSystemHost.cs:305-314 | during Mount, the Unmounted hook runs if and only if the dispatcher failed to start |
| Lifecycle.GuardStrategyFollowsSynchronized | src/dotnet/FileSystemHost.cs:287-289 | once the object is created, the guard strategy is set; it is 1 exactly when Synchronized and 0 otherwise |
| Lifecycle.DisposeReleasesUnconditionally | src/dotnet/FileSystemHost.cs:59-77 | disposing a null handle does nothing; on a live one the dispatcher stops first and the release comes last whatever Unmounted does; Unmounted runs exactly on the explicit path |
| Dispatch.PassThrough | src/dotnet/FileSystemHost.cs:530-556 | a uniform adapter passes the hook's reply through and, on a fault, returns the handler's status with exactly its signature's out parameters zeroed |
| Dispatch.OpenStatus | src/dotnet/FileSystemHost.cs:454-529 | Create and Open return the hook's status, or the handler's status for its fault |
| Dispatch.OpenInfoAfter | src/dotnet/FileSystemHost.cs:466-493 | the hook writes FileInfo through the aliased out parameter, and a fault keeps what it wrote, since the catch arm does not reset it; on a success with a name the normalized name is set to it, and otherwise the name is unchanged |
| Dispatch.BindOnSuccess | src/dotnet/FileSystemHost.cs:482-487 | the slot is bound to the hook's node and descriptor when the hook returns a success, and the table is unchanged otherwise |
| Dispatch.BindingFollowsStatus | src/dotnet/FileSystemHost.cs:517-522 | binding touches only the slot opened; a success the hook returned binds the pair; a failing status leaves the table as it was; a fault never binds, even when the handler maps it to a success |
| Dispatch.OfferedBuffer | src/dotnet/FileSystemHost.cs:432-435 | the hook is offered a non-null (empty) buffer if and only if the caller passed a size pointer |
| Dispatch.GetSecurityByName | src/dotnet/FileSystemHost.cs:421-453 | for a success other than STATUS_REPARSE, the attributes are written (exactly when the pointer is non-null) and the status becomes the copy's; any other status passes through with nothing written; a fault gives the handler's status |
| Dispatch.ReparseBypassesCopy | src/dotnet/FileSystemHost.cs:438-446 | STATUS_REPARSE reaches the caller unchanged, with no attributes written and no copy made |
| Dispatch.CopyOnSuccess | src/dotnet/FileSystemHost.cs:799-801 | the buffer is copied and its status returned only on a success status; a failure passes through; a fault gives the handler's status |
| Dispatch.GetSecurity | src/dotnet/FileSystemHost.cs:781-808 | the hook gets the file's context and the empty non-null buffer; a success status is replaced by the descriptor copy's, a failure is returned unchanged |
| Dispatch.GetReparsePoint | src/dotnet/FileSystemHost.cs:896-924 | the hook gets the context, the name and a null buffer; a success status is replaced by the reparse copy's, a failure is returned unchanged |
| Dispatch.FailureIsNeverCopied | src/dotnet/FileSystemHost.cs:916-917 | on a failing hook status the copy routine has no effect on the result |
| Dispatch.SectionsIgnoreOtherBits | src/dotnet/FileSystemHost.cs:821-829 | only bits 1, 2, 4 and 8 select sections; a mask without them selects none; all four select Owner, Group, Access and Audit |
| Dispatch.SetSecurity | src/dotnet/FileSystemHost.cs:809-840 | the set built one bit at a time is the mask's section set, and the hook's guarded status is returned |
| Dispatch.Cleanup | src/dotnet/FileSystemHost.cs:557-578 | a fault is reported to ExceptionHandler and its status discarded; the handler is consulted exactly when the hook throws |
| Dispatch.GetDirInfoByName | src/dotnet/FileSystemHost.cs:996-1023 | the hook's status, FileInfo and name are returned, the name whatever the status; a fault resets the whole DirInfo |
| Host.FileSystemHost.constructor | src/dotnet/FileSystemHost.cs:41-45 | the flag word is exactly UmFileContextIsFullContext; no native object; no bound context |
| Host.FileSystemHost.SetCapability | src/dotnet/FileSystemHost.cs:131-210 | the new word is `Assign` of the old one: true sets the flag, false changes nothing, other flags stay |
| Host.FileSystemHost.SetPrefix | src/dotnet/FileSystemHost.cs:214-218 | the prefix is replaced |
| Host.FileSystemHost.Preflight | src/dotnet/FileSystemHost.cs:238-243 | one native preflight, named WinFsp.Disk for an empty prefix and WinFsp.Net otherwise, whose status is returned |
| Host.FileSystemHost.CallHook | src/dotnet/FileSystemHost.cs:271-279 | a guarded status hook: its status or the handler's, with the handler call logged after the hook on a fault |
| Host.FileSystemHost.CallVoidHook | src/dotnet/FileSystemHost.cs:307-314 | a guarded void hook: logged, with the handler consulted only on a fault |
| Host.FileSystemHost.Serve | src/dotnet/FileSystemHost.cs:286-316 | the stages after a successful create append exactly the calls and give the status of `ServeStages` |
| Host.FileSystemHost.RunSetters | src/dotnet/FileSystemHost.cs:131-218 | a hook's setter calls, run one by one through the property setters, leave the properties `ApplyAll` gives |
| Host.FileSystemHost.Init | src/dotnet/FileSystemHost.cs:271-279 | the guarded Init hook: its status or the handler's, logged in order, with the setter calls it made on the host applied |
| Host.FileSystemHost.Mount | src/dotnet/FileSystemHost.cs:265-324 | status, new handle, appended calls and properties afterwards are those of `MountSpec` from the properties before, so the create sees what Init left, and every Lifecycle property above holds |
| Host.FileSystemHost.Dispose | src/dotnet/FileSystemHost.cs:59-77 | the handle ends null, and the appended calls are `DisposeTrace` of the old handle |
| Host.FileSystemHost.DisposeHostAsWritten | src/dotnet/FileSystemHost.cs:53-58 | Dispose(true), leaving the finalizer registered |
| Host.FileSystemHost.DisposeHost | src/dotnet/FileSystemHost.cs:53-58 | Dispose(true), then the finalizer is suppressed |
| Host.FileSystemHost.Unmount | src/dotnet/FileSystemHost.cs:328-331 | Dispose() as written: the handle ends null, the calls are `DisposeTrace` on the explicit path, and the finalizer's registration is unchanged |
| Host.FileSystemHost.UnmountCorrected | src/dotnet/FileSystemHost.cs:328-331 | Unmount over the corrected Dispose(): the same release, and no finalizer remains |
| Host.FileSystemHost.Finalize | src/dotnet/FileSystemHost.cs:46-49 | Dispose(false): releases a live object and never calls the Unmounted hook |
| Host.FileSystemHost.MountPoint | src/dotnet/FileSystemHost.cs:336-340 | null exactly when no native object is live, else the native object's mount point |
| Host.FileSystemHost.CompleteOpen | src/dotnet/FileSystemHost.cs:482-493 | status, OpenFileInfo and context table after the hook are `OpenStatus`, `OpenInfoAfter` and `BindOnSuccess`; a fault keeps the FileInfo the hook had written |
| Host.FileSystemHost.Create | src/dotnet/FileSystemHost.cs:454-494 | Create binds and names only on success, with the status and OpenFileInfo above, the fault path included |
| Host.FileSystemHost.Open | src/dotnet/FileSystemHost.cs:495-529 | Open binds and names only on success, with the status and OpenFileInfo above, the fault path included |
| Host.FileSystemHost.Close | src/dotnet/FileSystemHost.cs:579-597 | the hook gets the slot's resolved context, bound or not; the slot is released exactly when the hook returns; a throw keeps the table and consults the handler |
| Host.FileSystemHost.CallPassThrough | src/dotnet/FileSystemHost.cs:625-658 | resolve the slot's context when the operation has one, bound or not, call the hook with it, and apply the fault boundary with the operation's out parameters |
| Host.ContextLifetime | src/dotnet/FileSystemHost.cs:454-597 | a successful Create binds its pair; a Write resolves that pair; a returning Close unbinds; a later Open binds the new pair only |
| Host.CloseFaultKeepsBinding | src/dotnet/FileSystemHost.cs:584-596 | after a successful Create, a Close hook that throws leaves the created binding in place |
| Host.FaultMappedToSuccessBindsNothing | src/dotnet/FileSystemHost.cs:454-494 | a Create hook that throws, under an ExceptionHandler that maps the fault to success, reports success with no binding; Close then runs on what the unbound slot reads and leaves it unbound |
| Host.MountThenUnmountTwice | src/dotnet/FileSystemHost.cs:265-331 | a Mount whose stages all succeed leaves the host live; Unmount releases it; a second Unmount appends no call to the log |
| Host.FailedMountLeavesNothingLive | src/dotnet/FileSystemHost.cs:265-324 | a failing Mount leaves no native object live, provided a failing native create writes a null handle |
| Host.FinalizerSurvivesDispose | src/dotnet/FileSystemHost.cs:46-58 | after Dispose() as written the finalizer is still registered, and when it runs it appends no call; after the corrected Dispose() none is registered |

## Left out

- Native `Api.*` calls are opaque steps with a supplied status, recorded in the ghost log. Their effects are native code that is not part of this model.
- `Api.CopySecurityDescriptor` and `Api.CopyReparsePoint` are abstract functions returning a status. Their size-negotiating buffer protocol is defined in `Fsp.Interop`, which is not part of this model.
- Pointer marshalling is not modelled. The attribute write in `GetSecurityByName` becomes the `attributesWritten` field. Not modelled:
  - `MakeSecurityDescriptor` and `MakeReparsePoint`;
  - the native function table built by the static constructor (src/dotnet/FileSystemHost.cs:1076-1107).
- `GetUserContext` is not modelled: each adapter is given the hosted file system directly. What `GetFullContext` reads from a slot that was never bound is the caller-supplied `unbound` pair, since the native slot's contents then lie outside the host. That case arises when a Create or Open fault is mapped to a success by ExceptionHandler.
- Concurrency is not modelled. This covers `lock (this)` in `Dispose()`, the threads of the native dispatcher, and what the coarse and fine guard strategies mean. Only the value 0 or 1 passed is modelled.
- Garbage collection is one field, `finalizerRegistered`. The model does not decide when the finalizer runs.
- String handling is not modelled:
  - `VolumeParams.SetPrefix`/`GetPrefix` truncation and `FileSystemName`;
  - `OpenFileInfo.SetNormalizedName`;
  - `DirInfo.SetFileNameBuf`, whose handling of a null name is not shown.

  Names are stored as given, as `Option<string>`.
- The numeric volume properties are plain field accessors with no logic: `SectorSize`, `SectorsPerAllocationUnit`, `MaxComponentLength`, `VolumeCreationTime`, `VolumeSerialNumber` and `FileInfoTimeout`.
- The getters `FileSystemHandle()` and `FileSystem()` are also plain field accessors with no logic.
- `Version()` and `SetDebugLogFile` are static foreign calls with no logic of their own.
- VolumeFlags: the flag word is a set of flags. This assumes each `VolumeParams` flag constant is a distinct single bit. The constants are defined in `Fsp.Interop`, which is not part of this model.
- Host.FileSystemHost.Mount: of the setter calls a hook can make on the host it is handed, only Init's are modelled. Those are the ones the native create reads. The Mounted and Unmounted hooks are assumed to make no setter calls. No hook is modelled calling any other host member, such as Mount, Unmount or Preflight.
- Host.FileSystemHost.Mount: it does not model whether a failing `FspFileSystemCreate` writes a null handle. The handle it reports is kept as given, which is why `Host.FailedMountLeavesNothingLive` takes that as a precondition.
- Host.FileSystemHost.MountPoint: the native mount-point string is a function of the handle.

## Findings

| source | as written | input that shows it | evidently intended | confidence | as-written member | corrected member |
|---|---|---|---|---|---|---|
| src/dotnet/FileSystemHost.cs:57 | `Dispose()` calls `GC.SuppressFinalize(true)`. That suppresses finalization of a boxed Boolean, not of the host, so the host's finalizer stays registered after an explicit Dispose | any host: construct it, call `Dispose()`, and the finalizer later runs `Dispose(false)`. Today this is harmless only because the handle is already null | `GC.SuppressFinalize(this)`: no finalizer runs after an explicit Dispose | not executed | Host.FileSystemHost.DisposeHostAsWritten (shown by Host.FinalizerSurvivesDispose) | Host.FileSystemHost.DisposeHost (used by Host.FileSystemHost.UnmountCorrected) |
