/**
 * How the header and the status badge judge a node: its colour and its
 * status text.
 */
module NodeHealth {
  import opened Wrappers
  import opened UiTypes

  datatype Color = Red | Amber | Green

  /** Jailed, or no node at the address. */
  predicate Unhealthy(node: CryptoNode) {
    node.isJailed || !node.nodeExists
  }

  /**
   * The header colour: red for an unhealthy node, amber when its latest
   * block height is known, non-zero and behind the network height, green
   * otherwise.
   */
  function HeaderColor(node: CryptoNode, currentHeight: int): (c: Color)
    ensures c == Red <==> node.isJailed || !node.nodeExists
    ensures c == Amber <==> (
      && node.nodeExists && !node.isJailed
      && node.latestBlockHeight.Some?
      && node.latestBlockHeight.value != 0
      && node.latestBlockHeight.value < currentHeight)
    ensures c == Green ==> node.nodeExists && !node.isJailed
  {
    if Unhealthy(node) then Red
    else if node.latestBlockHeight.Some? && node.latestBlockHeight.value != 0 && node.latestBlockHeight.value < currentHeight then Amber
    else Green
  }

  /** The badge colour: red for an unhealthy node, green otherwise. */
  function BadgeColor(node: CryptoNode): (c: Color)
    ensures c != Amber
    ensures c == Red <==> node.isJailed || !node.nodeExists
  {
    if Unhealthy(node) then Red else Green
  }

  /** The status text shared by the header and the badge. */
  function StatusText(node: CryptoNode): (s: string)
    ensures s == "Invalid address" <==> !node.nodeExists
    ensures s == "Jailed" <==> node.nodeExists && node.isJailed
    ensures s == "Not Jailed" <==> node.nodeExists && !node.isJailed
  {
    if Unhealthy(node) then (if node.nodeExists then "Jailed" else "Invalid address") else "Not Jailed"
  }

  /** The header and the badge agree on red, and on everything else when the header is not amber. */
  lemma HeaderRefinesBadge(node: CryptoNode, currentHeight: int)
    ensures HeaderColor(node, currentHeight) == Red <==> BadgeColor(node) == Red
    ensures HeaderColor(node, currentHeight) != Amber ==> HeaderColor(node, currentHeight) == BadgeColor(node)
  {
  }

  /** A node whose latest height is unknown or 0 is never amber, however far the network has moved on. */
  lemma UnknownHeightNeverAmber(node: CryptoNode, currentHeight: int)
    requires node.latestBlockHeight == None || node.latestBlockHeight == Some(0)
    ensures HeaderColor(node, currentHeight) == BadgeColor(node)
  {
  }

  /** The text says "Not Jailed" exactly when the badge is green. */
  lemma TextMatchesBadge(node: CryptoNode)
    ensures StatusText(node) == "Not Jailed" <==> BadgeColor(node) == Green
  {
  }
}
