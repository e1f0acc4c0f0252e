/**
 * The capability flag word of the volume parameters (VolumeParams.Flags).
 * Each flag constant of VolumeParams is one distinct bit, so the word is
 * modelled as the set of flags whose bit is set: `Flags |= X` is a union
 * and `0 != (Flags & X)` is membership.
 */
module VolumeFlags {

  datatype VolumeFlag =
    | CaseSensitiveSearch
    | CasePreservedNames
    | UnicodeOnDisk
    | PersistentAcls
    | ReparsePoints
    | ReparsePointsAccessCheck
    | NamedStreams
    | PostCleanupWhenModifiedOnly
    | PassQueryDirectoryPattern
    | PassQueryDirectoryFileName
    | FlushAndPurgeOnCleanup
    | DeviceControl
    | UmFileContextIsFullContext

  /** The flags that FileSystemHost exposes as Boolean properties. */
  type Capability = f: VolumeFlag | f != UmFileContextIsFullContext witness CaseSensitiveSearch

  type FlagWord = set<VolumeFlag>

  /** The flag word of a newly constructed host. */
  const InitialFlags: FlagWord := {UmFileContextIsFullContext}

  /** A capability property's getter. */
  predicate IsSet(word: FlagWord, f: VolumeFlag) {
    f in word
  }

  /**
   * A capability property's setter, `Flags |= (value ? X : 0)`: `true` sets
   * the flag's bit, `false` ORs in nothing; no other bit moves.
   */
  function Assign(word: FlagWord, f: Capability, value: bool): (word': FlagWord)
    ensures value ==> IsSet(word', f)
    ensures !value ==> word' == word
    ensures forall g :: g != f ==> (IsSet(word', g) <==> IsSet(word, g))
    ensures word <= word'
  {
    word + (if value then {f} else {})
  }

  /** A new host exposes every capability as false. */
  lemma InitialCapabilitiesClear(f: Capability)
    ensures !IsSet(InitialFlags, f) && IsSet(InitialFlags, UmFileContextIsFullContext)
  {
  }
}
