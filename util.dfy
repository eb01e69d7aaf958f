// The server identifier every report carries: the host name, a dash, and
// the start of the machine id.

module Util {
  import opened Wrappers

  /** What stands in for a host name or machine id that cannot be read. */
  const UNKNOWN: string := "unknown"

  /** How many leading characters of the machine id the identifier keeps. */
  const ID_PREFIX: nat := 8

  function Min(a: nat, b: nat): nat {
    if a <= b then a else b
  }

  /**
   * `generate_server_id`, with the host name and machine id as read (or
   * not) from the system.
   */
  function ServerId(hostname: Option<string>, machineId: Option<string>): (id: string)
    ensures |id| == |hostname.GetOr(UNKNOWN)| + 1 + Min(ID_PREFIX, |machineId.GetOr(UNKNOWN)|)
  {
    var host := hostname.GetOr(UNKNOWN);
    var machine := machineId.GetOr(UNKNOWN);
    host + "-" + machine[..Min(ID_PREFIX, |machine|)]
  }

  /**
   * The identifier is the host name, then `-`, then a prefix of the machine
   * id that is eight characters long, or the whole id when it is shorter.
   */
  lemma ServerIdParts(hostname: Option<string>, machineId: Option<string>)
    ensures var host, machine, id := hostname.GetOr(UNKNOWN), machineId.GetOr(UNKNOWN), ServerId(hostname, machineId);
            && id[..|host|] == host
            && id[|host|] == '-'
            && var tail := id[|host| + 1..];
               |tail| <= |machine| && tail == machine[..|tail|]
               && (|machine| >= ID_PREFIX ==> |tail| == ID_PREFIX)
               && (|machine| <= ID_PREFIX ==> tail == machine)
  {
    var host, machine, id := hostname.GetOr(UNKNOWN), machineId.GetOr(UNKNOWN), ServerId(hostname, machineId);
    var tail := machine[..Min(ID_PREFIX, |machine|)];
    assert id == host + "-" + tail;
    assert id[..|host|] == host;
    assert id[|host| + 1..] == tail;
  }

  /** A host name that cannot be read gives an identifier starting `unknown-`. */
  lemma MissingHostname(machineId: Option<string>)
    ensures ServerId(None, machineId)[..|UNKNOWN| + 1] == "unknown-"
  {
    ServerIdParts(None, machineId);
  }

  /** A machine id that cannot be read is `unknown`, short enough to be kept whole. */
  lemma MissingMachineId(hostname: Option<string>)
    ensures ServerId(hostname, None) == hostname.GetOr(UNKNOWN) + "-unknown"
  {
    assert UNKNOWN[..Min(ID_PREFIX, |UNKNOWN|)] == UNKNOWN;
  }

  /** Two hosts with the same name and the same first eight id characters share an identifier. */
  lemma SameNameAndPrefixCollide(hostname: string, a: string, b: string)
    requires |a| >= ID_PREFIX && |b| >= ID_PREFIX && a[..ID_PREFIX] == b[..ID_PREFIX]
    ensures ServerId(Some(hostname), Some(a)) == ServerId(Some(hostname), Some(b))
  {
  }
}
