/** Values shared by every component of the kernel-collection rebuild. */
module Common {

  /** An optional value, the model of a key that may be absent from a property-list dictionary. */
  datatype Option<T> = None | Some(value: T)

  /** The ways a run of the rebuild can abort: one per exception the modelled functions raise on the tool outputs they are given. */
  datatype Error =
    | BadMarkerCount             // ValueError: the inspection report has neither one nor two section markers
    | BlankLine(line: nat)       // IndexError: `split()[0]` of a blank line in the kext section, at this index of the report
    | EmptyVersionOutput         // IndexError: `splitlines()[0]` of an empty kernel-version text
    | MissingKey(key: string)    // KeyError: a dictionary key the program reads unconditionally is absent
    | NoRootVolume               // ValueError: no snapshot anywhere is mounted on "/"

  datatype Result<T> = Success(value: T) | Failure(error: Error)

  /** Where the rebuilt boot kernel collection is written. */
  const KcNoShimPath: string := "/Library/KernelCollections/kc.noshim.macho"
}
