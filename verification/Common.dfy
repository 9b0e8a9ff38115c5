/** What several modules share. */
module Common {

  datatype Option<T> = None | Some(value: T)

  /** Size of an affinity mask. */
  const CPU_SETSIZE: nat := 1024

  /** What a descriptor is watched for. EPOLL_CTL_ADD always asks for urgent data
      as well, which counts as a read event; restorefd() for writing does not. */
  datatype Interest = ForRead | ForWrite(urgent: bool)

  predicate Increasing(s: seq<nat>) {
    forall i, j :: 0 <= i < j < |s| ==> s[i] < s[j]
  }
}
