/**
 * The status bar: the node's address label and the guard in front of the
 * node lookup. Its colour and text are NodeHealth.BadgeColor and
 * NodeHealth.StatusText, and its active path is Routing.ActivePath.
 */
module NodeStatus {
  import opened Wrappers
  import Js

  /** The address as the status bar shows it: its first 6 and last 4 characters. */
  function AddressLabel(address: string): (shown: string)
    ensures |address| >= 6 ==> shown == address[..6] + "..." + address[|address| - 4..]
    ensures |address| >= 6 ==> |shown| == 13
    ensures 4 <= |address| < 6 ==> shown == address + "..." + address[|address| - 4..]
    ensures |address| < 4 ==> shown == address + "..." + address
  {
    Js.Abbreviate(address, 6, 4)
  }

  /**
   * `updateBalance`: the endpoint to query, or None when it aborts because the
   * endpoint or the address is the empty string. A missing (undefined) address
   * is not the empty string, so it does not abort.
   */
  function NodeLookup(rpcEndpoint: string, address: Option<string>): (r: Option<string>)
    ensures r.None? <==> rpcEndpoint == "" || address == Some("")
    ensures r.Some? ==> r.value == rpcEndpoint
  {
    if rpcEndpoint == "" || address == Some("") then None else Some(rpcEndpoint)
  }

  /** Unlike the header's truthiness test, an undefined address still sends the lookup. */
  lemma UndefinedAddressIsLookedUp(rpcEndpoint: string)
    requires rpcEndpoint != ""
    ensures NodeLookup(rpcEndpoint, None) == Some(rpcEndpoint)
  {
  }

  /** Two long addresses get the same label exactly when they share their first 6 and last 4 characters. */
  lemma LabelsCollide(a: string, b: string)
    requires |a| >= 10 && |b| >= 10
    ensures AddressLabel(a) == AddressLabel(b) <==> a[..6] == b[..6] && a[|a| - 4..] == b[|b| - 4..]
  {
    var la, lb := AddressLabel(a), AddressLabel(b);
    if la == lb {
      assert la[..6] == a[..6] && lb[..6] == b[..6];
      assert la[9..] == a[|a| - 4..] && lb[9..] == b[|b| - 4..];
    }
  }
}
