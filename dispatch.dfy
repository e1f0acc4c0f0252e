/**
 * The decision logic of the dispatch adapters of FileSystemHost: what each
 * adapter passes to the hosted file system, what it writes back, and when.
 * Native copy routines (CopySecurityDescriptor, CopyReparsePoint) are
 * opaque status-returning functions supplied by the caller.
 */
module Dispatch {
  import opened FaultBoundary

  /** A native FullContext slot, as the native engine passes it by reference. */
  type Slot = nat

  /** The identity of an object of the hosted file system (a FileNode or FileDesc). */
  type ObjectRef = nat

  /** The pair SetFullContext stores in a slot and GetFullContext reads back. */
  datatype FileContext = FileContext(fileNode: ObjectRef, fileDesc: ObjectRef)

  /** The contents of a fixed-shape out-record (VolumeInfo, FileInfo, IoStatusBlock, a byte count). */
  datatype Record = Zeroed | Written(content: nat)

  // ---- The uniform pass-through adapters ----

  datatype OutParam = VolumeInfoOut | FileInfoOut | BytesTransferredOut | IoStatusOut

  type Outs = map<OutParam, Record>

  datatype PassThroughOp =
    | GetVolumeInfo | SetVolumeLabel | Overwrite | Read | Write | Flush | GetFileInfo
    | SetBasicInfo | SetFileSize | Rename | ReadDirectory | ResolveReparsePoints
    | SetReparsePoint | DeleteReparsePoint | GetStreamInfo | Control | SetDelete

  /** The out parameters each adapter's signature has, and so resets on a fault. */
  function OutParams(op: PassThroughOp): set<OutParam> {
    match op
    case GetVolumeInfo | SetVolumeLabel => {VolumeInfoOut}
    case Overwrite | Flush | GetFileInfo | SetBasicInfo | SetFileSize => {FileInfoOut}
    case Read | ReadDirectory | GetStreamInfo | Control => {BytesTransferredOut}
    case Write => {BytesTransferredOut, FileInfoOut}
    case ResolveReparsePoints => {IoStatusOut}
    case Rename | SetReparsePoint | DeleteReparsePoint | SetDelete => {}
  }

  /** Whether the adapter resolves a file's FullContext before calling its hook. */
  predicate TakesContext(op: PassThroughOp) {
    !(op == GetVolumeInfo || op == SetVolumeLabel || op == ResolveReparsePoints)
  }

  function ZeroedOuts(params: set<OutParam>): (outs: Outs)
    ensures outs.Keys == params
    ensures forall p :: p in outs ==> outs[p] == Zeroed
  {
    map p | p in params :: Zeroed
  }

  /**
   * One uniform adapter: the hook's reply reaches the native caller
   * unchanged; a fault yields the ExceptionHandler status with every out
   * parameter of the adapter's signature reset to its default.
   */
  function PassThrough(fileSystem: FileSystemBase, op: PassThroughOp, call: Outcome<Reply<Outs>>): (r: Reply<Outs>)
    ensures call.Ret? ==> r == call.value
    ensures call.Throw? ==>
              && r.status == ExceptionHandler(fileSystem, call.fault)
              && r.out.Keys == OutParams(op)
              && forall p :: p in r.out ==> r.out[p] == Zeroed
  {
    Guard(fileSystem, call, ZeroedOuts(OutParams(op)))
  }

  // ---- Create and Open ----

  /** The arguments Create hands to the hosted file system. */
  datatype CreateRequest = CreateRequest(
    fileName: string, createOptions: uint32, grantedAccess: uint32, fileAttributes: uint32,
    securityDescriptor: Option<Bytes>, allocationSize: nat)

  /** The arguments Open hands to the hosted file system. */
  datatype OpenRequest = OpenRequest(fileName: string, createOptions: uint32, grantedAccess: uint32)

  /** What a Create or Open hook returns: a status and its out parameters. */
  datatype OpenReply = OpenReply(
    status: int32, fileNode: ObjectRef, fileDesc: ObjectRef, fileInfo: Record, normalizedName: Option<string>)

  /** The native OpenFileInfo record: a FileInfo and the normalized name buffer. */
  datatype OpenFileInfo = OpenFileInfo(fileInfo: Record, normalizedName: Option<string>)

  /** The status Create and Open return. */
  function OpenStatus(fileSystem: FileSystemBase, call: Outcome<OpenReply>): (status: int32)
    ensures call.Ret? ==> status == call.value.status
    ensures call.Throw? ==> status == ExceptionHandler(fileSystem, call.fault)
  {
    match call
    case Ret(reply) => reply.status
    case Throw(f) => ExceptionHandler(fileSystem, f)
  }

  /**
   * The OpenFileInfo Create and Open leave. The hook writes FileInfo
   * directly through its out parameter, which aliases the caller's record,
   * and the catch arm does not reset it: a faulting hook leaves whatever it
   * had written there (`leftOnFault`, the old FileInfo if it wrote nothing).
   * The normalized name is set only on a success status, and only when the
   * hook gave one.
   */
  function OpenInfoAfter(info: OpenFileInfo, call: Outcome<OpenReply>, leftOnFault: Record): (info': OpenFileInfo)
    ensures call.Throw? ==> info' == info.(fileInfo := leftOnFault)
    ensures call.Ret? ==> info'.fileInfo == call.value.fileInfo
    ensures call.Ret? && Succeeded(call.value.status) && call.value.normalizedName.Some? ==>
              info'.normalizedName == call.value.normalizedName
    ensures !(call.Ret? && Succeeded(call.value.status) && call.value.normalizedName.Some?) ==>
              info'.normalizedName == info.normalizedName
  {
    match call
    case Throw(_) => info.(fileInfo := leftOnFault)
    case Ret(reply) =>
      var name := if Succeeded(reply.status) && reply.normalizedName.Some? then reply.normalizedName else info.normalizedName;
      OpenFileInfo(reply.fileInfo, name)
  }

  /** The context table after Create or Open on `slot`. */
  function BindOnSuccess(contexts: map<Slot, FileContext>, slot: Slot, call: Outcome<OpenReply>): (contexts': map<Slot, FileContext>)
    ensures call.Ret? && Succeeded(call.value.status) ==>
              contexts' == contexts[slot := FileContext(call.value.fileNode, call.value.fileDesc)]
    ensures !(call.Ret? && Succeeded(call.value.status)) ==> contexts' == contexts
  {
    if call.Ret? && Succeeded(call.value.status) then
      contexts[slot := FileContext(call.value.fileNode, call.value.fileDesc)]
    else contexts
  }

  /**
   * Binding touches only the slot opened; a success the hook returned binds
   * the pair, while a failing status or a fault binds nothing, even when
   * ExceptionHandler maps the fault to a success.
   */
  lemma BindingFollowsStatus(fileSystem: FileSystemBase, contexts: map<Slot, FileContext>, slot: Slot,
                             call: Outcome<OpenReply>, other: Slot)
    requires other != slot
    ensures var contexts' := BindOnSuccess(contexts, slot, call);
      && (other in contexts' <==> other in contexts)
      && (other in contexts ==> contexts'[other] == contexts[other])
      && (!Succeeded(OpenStatus(fileSystem, call)) ==> contexts' == contexts)
      && (call.Throw? ==> contexts' == contexts)
      && (Succeeded(OpenStatus(fileSystem, call)) && call.Ret? ==>
            slot in contexts' && contexts'[slot] == FileContext(call.value.fileNode, call.value.fileDesc))
  {
  }

  // ---- Security and reparse data ----

  /** What a GetSecurityByName hook returns: a status, the attributes, and its security descriptor buffer. */
  datatype ByNameReply = ByNameReply(status: int32, fileAttributes: uint32, securityDescriptor: Option<Bytes>)

  /** What GetSecurityByName reports: its status, and the attributes it wrote, if any. */
  datatype ByNameResult = ByNameResult(status: int32, attributesWritten: Option<uint32>)

  /** The empty non-null buffer (ByteBufferNotNull) offered when the caller can take a descriptor. */
  function OfferedBuffer(hasSizePointer: bool): (buffer: Option<Bytes>)
    ensures buffer.Some? <==> hasSizePointer
    ensures buffer.Some? ==> buffer.value == []
  {
    if hasSizePointer then Some([]) else None
  }

  /**
   * GetSecurityByName. The hook is offered a non-null buffer iff the caller
   * passed a size pointer. A success status other than STATUS_REPARSE writes
   * the attributes (when the caller passed an attributes pointer) and is
   * replaced by the descriptor copy's status; any other status passes
   * through with nothing written and nothing copied.
   */
  function GetSecurityByName(fileSystem: FileSystemBase, fileName: string, hasAttributesPointer: bool,
                             hasSizePointer: bool, hook: (string, Option<Bytes>) -> Outcome<ByNameReply>,
                             copySecurityDescriptor: Option<Bytes> -> int32): (r: ByNameResult)
    ensures var call := hook(fileName, OfferedBuffer(hasSizePointer));
      && (call.Throw? ==> r == ByNameResult(ExceptionHandler(fileSystem, call.fault), None))
      && (call.Ret? && (!Succeeded(call.value.status) || call.value.status == STATUS_REPARSE) ==>
            r == ByNameResult(call.value.status, None))
      && (call.Ret? && Succeeded(call.value.status) && call.value.status != STATUS_REPARSE ==>
            && r.status == copySecurityDescriptor(call.value.securityDescriptor)
            && (r.attributesWritten.Some? <==> hasAttributesPointer)
            && (r.attributesWritten.Some? ==> r.attributesWritten.value == call.value.fileAttributes))
  {
    match hook(fileName, OfferedBuffer(hasSizePointer))
    case Throw(f) => ByNameResult(ExceptionHandler(fileSystem, f), None)
    case Ret(reply) =>
      if Succeeded(reply.status) && reply.status != STATUS_REPARSE then
        var written := if hasAttributesPointer then Some(reply.fileAttributes) else None;
        ByNameResult(copySecurityDescriptor(reply.securityDescriptor), written)
      else ByNameResult(reply.status, None)
  }

  /** STATUS_REPARSE from the hook reaches the caller as is, with no attributes written and no copy made. */
  lemma ReparseBypassesCopy(fileSystem: FileSystemBase, fileName: string, hasAttributesPointer: bool,
                            hasSizePointer: bool, hook: (string, Option<Bytes>) -> Outcome<ByNameReply>,
                            copySecurityDescriptor: Option<Bytes> -> int32)
    requires hook(fileName, OfferedBuffer(hasSizePointer)).Ret?
    requires hook(fileName, OfferedBuffer(hasSizePointer)).value.status == STATUS_REPARSE
    ensures GetSecurityByName(fileSystem, fileName, hasAttributesPointer, hasSizePointer, hook, copySecurityDescriptor)
            == ByNameResult(STATUS_REPARSE, None)
  {
  }

  /** What a GetSecurity or GetReparsePoint hook returns: a status and the buffer it left. */
  datatype BytesReply = BytesReply(status: int32, bytes: Option<Bytes>)

  /**
   * The shared tail of GetSecurity and GetReparsePoint: copy the hook's
   * buffer only on a success status; pass any failure through uncopied.
   */
  function CopyOnSuccess(fileSystem: FileSystemBase, call: Outcome<BytesReply>, copy: Option<Bytes> -> int32): (status: int32)
    ensures call.Ret? && Succeeded(call.value.status) ==> status == copy(call.value.bytes)
    ensures call.Ret? && !Succeeded(call.value.status) ==> status == call.value.status
    ensures call.Throw? ==> status == ExceptionHandler(fileSystem, call.fault)
  {
    match call
    case Throw(f) => ExceptionHandler(fileSystem, f)
    case Ret(reply) => if Succeeded(reply.status) then copy(reply.bytes) else reply.status
  }

  /** GetSecurity: the hook gets the file's context and the empty non-null buffer; only a success is copied. */
  function GetSecurity(fileSystem: FileSystemBase, context: FileContext,
                       hook: (FileContext, Option<Bytes>) -> Outcome<BytesReply>,
                       copySecurityDescriptor: Option<Bytes> -> int32): (status: int32)
    ensures var call := hook(context, Some([]));
      && (call.Ret? && Succeeded(call.value.status) ==> status == copySecurityDescriptor(call.value.bytes))
      && (call.Ret? && !Succeeded(call.value.status) ==> status == call.value.status)
      && (call.Throw? ==> status == ExceptionHandler(fileSystem, call.fault))
  {
    CopyOnSuccess(fileSystem, hook(context, Some([])), copySecurityDescriptor)
  }

  /** GetReparsePoint: the hook gets the file's context, the name and a null buffer; only a success is copied. */
  function GetReparsePoint(fileSystem: FileSystemBase, context: FileContext, fileName: string,
                           hook: (FileContext, string, Option<Bytes>) -> Outcome<BytesReply>,
                           copyReparsePoint: Option<Bytes> -> int32): (status: int32)
    ensures var call := hook(context, fileName, None);
      && (call.Ret? && Succeeded(call.value.status) ==> status == copyReparsePoint(call.value.bytes))
      && (call.Ret? && !Succeeded(call.value.status) ==> status == call.value.status)
      && (call.Throw? ==> status == ExceptionHandler(fileSystem, call.fault))
  {
    CopyOnSuccess(fileSystem, hook(context, fileName, None), copyReparsePoint)
  }

  /** A failing hook's status is never replaced by a copy's. */
  lemma FailureIsNeverCopied(fileSystem: FileSystemBase, call: Outcome<BytesReply>,
                             copy: Option<Bytes> -> int32, other: Option<Bytes> -> int32)
    requires call.Ret? && !Succeeded(call.value.status)
    ensures CopyOnSuccess(fileSystem, call, copy) == CopyOnSuccess(fileSystem, call, other) == call.value.status
  {
  }

  /** The .NET AccessControlSections a SetSecurity hook is given. */
  datatype AccessControlSection = Owner | Group | Access | Audit

  /** The native SECURITY_INFORMATION bit that selects each section. */
  function InformationBit(section: AccessControlSection): bv32 {
    match section
    case Owner => 1  // OWNER_SECURITY_INFORMATION
    case Group => 2  // GROUP_SECURITY_INFORMATION
    case Access => 4 // DACL_SECURITY_INFORMATION
    case Audit => 8  // SACL_SECURITY_INFORMATION
  }

  /** The sections a SECURITY_INFORMATION mask selects. */
  function SectionsOf(securityInformation: bv32): set<AccessControlSection> {
    set s: AccessControlSection | securityInformation & InformationBit(s) != 0
  }

  /** Bits above the four section bits select nothing, and an empty mask gives AccessControlSections.None. */
  lemma SectionsIgnoreOtherBits(securityInformation: bv32)
    ensures SectionsOf(securityInformation) == SectionsOf(securityInformation & 0xF)
    ensures securityInformation & 0xF == 0 ==> SectionsOf(securityInformation) == {}
    ensures SectionsOf(0xF) == {Owner, Group, Access, Audit}
  {
    forall s: AccessControlSection
      ensures securityInformation & InformationBit(s) != 0 <==> (securityInformation & 0xF) & InformationBit(s) != 0
    {
    }
    assert SectionsOf(0xF) == {Owner, Group, Access, Audit} by {
      assert Owner in SectionsOf(0xF) && Group in SectionsOf(0xF);
      assert Access in SectionsOf(0xF) && Audit in SectionsOf(0xF);
    }
  }

  /**
   * SetSecurity: build the section set one bit at a time, then call the hook
   * with the file's context, the sections and the modification descriptor.
   */
  method SetSecurity(fileSystem: FileSystemBase, context: FileContext, securityInformation: bv32,
                     modificationDescriptor: Option<Bytes>,
                     hook: (FileContext, set<AccessControlSection>, Option<Bytes>) -> Outcome<int32>)
    returns (status: int32)
    ensures status == HookStatus(fileSystem, hook(context, SectionsOf(securityInformation), modificationDescriptor))
  {
    var s: set<AccessControlSection> := {};
    if securityInformation & 1 != 0 {
      s := s + {Owner};
    }
    if securityInformation & 2 != 0 {
      s := s + {Group};
    }
    if securityInformation & 4 != 0 {
      s := s + {Access};
    }
    if securityInformation & 8 != 0 {
      s := s + {Audit};
    }
    assert s == SectionsOf(securityInformation) by {
      forall x: AccessControlSection ensures x in s <==> x in SectionsOf(securityInformation) {
      }
    }
    status := HookStatus(fileSystem, hook(context, s, modificationDescriptor));
  }

  // ---- Cleanup and GetDirInfoByName ----

  /**
   * Cleanup returns nothing to the native caller: a faulting hook is
   * reported to ExceptionHandler, whose status is returned here only to show
   * what Cleanup discards.
   */
  function Cleanup(fileSystem: FileSystemBase, context: FileContext, fileName: string, flags: uint32,
                   hook: (FileContext, string, uint32) -> Outcome<()>): (discarded: Option<int32>)
    ensures discarded.Some? <==> hook(context, fileName, flags).Throw?
    ensures discarded.Some? ==> discarded.value == ExceptionHandler(fileSystem, hook(context, fileName, flags).fault)
  {
    match hook(context, fileName, flags)
    case Ret(_) => None
    case Throw(f) => Some(ExceptionHandler(fileSystem, f))
  }

  /** What a GetDirInfoByName hook returns. */
  datatype DirReply = DirReply(status: int32, normalizedName: Option<string>, fileInfo: Record)

  /** The native DirInfo record: a FileInfo and the file name buffer. */
  datatype DirInfo = DirInfo(fileInfo: Record, fileName: Option<string>)

  const DefaultDirInfo := DirInfo(Zeroed, None)

  /**
   * GetDirInfoByName: unlike Create and Open, the name is copied into the
   * DirInfo whatever the status; a fault resets the whole DirInfo.
   */
  function GetDirInfoByName(fileSystem: FileSystemBase, context: FileContext, fileName: string,
                            hook: (FileContext, string) -> Outcome<DirReply>): (r: Reply<DirInfo>)
    ensures var call := hook(context, fileName);
      && (call.Ret? ==> r == Reply(call.value.status, DirInfo(call.value.fileInfo, call.value.normalizedName)))
      && (call.Throw? ==> r == Reply(ExceptionHandler(fileSystem, call.fault), DefaultDirInfo))
  {
    var call := match hook(context, fileName)
      case Ret(reply) => Ret(Reply(reply.status, DirInfo(reply.fileInfo, reply.normalizedName)))
      case Throw(f) => Throw(f);
    Guard(fileSystem, call, DefaultDirInfo)
  }
}
