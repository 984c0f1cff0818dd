/** What the modules share: pages, the status of a memory access, and optional values. */
module Common {
  const PAGE_SHIFT := 12
  const PAGE_SIZE := 4096

  /** A memory access succeeds, violates an access check, or meets poisoned data. */
  datatype Status = Okay | AccessFault | DataCorruption

  datatype Option<T> = None | Some(value: T)
}
