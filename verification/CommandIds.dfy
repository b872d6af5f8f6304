/** Identities of device commands.

A command made from configuration event number `e` is named after that event; a retry is named
after the command that timed out and the number of the attempt. */
module CommandIds {

  datatype CmdId = ConfigCmd(event: nat) | RetryCmd(failed: CmdId, attempt: nat)

  /** The configuration event a command ultimately carries out. */
  function Root(c: CmdId): nat
  {
    match c
    case ConfigCmd(e) => e
    case RetryCmd(f, _) => Root(f)
  }

  /** How many retries lie between the command and its configuration event. */
  function Depth(c: CmdId): nat
  {
    match c
    case ConfigCmd(_) => 0
    case RetryCmd(f, _) => Depth(f) + 1
  }

  /** Attempts are numbered 1, 2, 3, ... along the chain of retries. */
  predicate Numbered(c: CmdId)
  {
    match c
    case ConfigCmd(_) => true
    case RetryCmd(f, attempt) => attempt == Depth(f) + 1 && Numbered(f)
  }

  /** Chains do not branch: event and depth determine the command. */
  lemma {:induction false} ChainUnique(a: CmdId, b: CmdId)
    requires Numbered(a) && Numbered(b) && Root(a) == Root(b) && Depth(a) == Depth(b)
    ensures a == b
  {
    if a.RetryCmd? { ChainUnique(a.failed, b.failed); }
  }
}
