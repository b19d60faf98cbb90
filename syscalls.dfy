/** Outcomes of the operating-system calls the tool makes. The model never
    performs a call: each call site receives its outcome as a parameter, so
    every proof holds for every outcome the kernel could produce. */
module Syscalls {
  import opened CLib

  /** What `read(fd, buf, n)` returned: -1, or the bytes it stored in `buf`. */
  datatype ReadOutcome = ReadFailed | ReadBytes(bytes: seq<Byte>)
  {
    /** The call's return value, `b_read`. */
    function Count(): (n: int)
      ensures n == -1 || n >= 0
    {
      match this
      case ReadFailed => -1
      case ReadBytes(b) => |b|
    }
  }

  /** What `sendto` returned: -1, or the number of bytes it accepted. */
  datatype SendOutcome = SendFailed | SendAccepted(count: nat)
  {
    function Count(): (n: int)
      ensures n == -1 || n >= 0
    {
      match this
      case SendFailed => -1
      case SendAccepted(c) => c
    }
  }

  /** What `poll` reported: readiness or a timeout (return value >= 0), an
      interrupted wait (-1 with errno EINTR) or any other failure. */
  datatype PollOutcome = PollReturned | PollInterrupted | PollFailed
}
