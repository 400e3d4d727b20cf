/**
 * Which page the menu and the status bar consider active, and which menu
 * buttons they draw. Both components derive the active path from the last
 * '/'-separated segment of the location's pathname.
 */
module Routing {
  import Js

  const RewardsPath: string := "rewards"
  const ErrorsPath: string := "errors"

  /** The active path: 'rewards' or 'errors' when the last segment names one, '' otherwise. */
  function ActivePath(pathname: string): (p: string)
    ensures p in {RewardsPath, ErrorsPath, ""}
    ensures p == RewardsPath <==> Js.LastSegment(pathname) == RewardsPath
    ensures p == ErrorsPath <==> Js.LastSegment(pathname) == ErrorsPath
  {
    var last := Js.LastSegment(pathname);
    if last == RewardsPath then RewardsPath
    else if last == ErrorsPath then ErrorsPath
    else ""
  }

  /** A segment name without a '/' is active exactly for itself or a path ending in '/' and that name. */
  lemma ActiveIff(pathname: string, w: string)
    requires w == RewardsPath || w == ErrorsPath
    ensures ActivePath(pathname) == w <==>
      pathname == w || (|pathname| > |w| && pathname[|pathname| - |w| - 1..] == "/" + w)
  {
    Js.LastSegmentIs(pathname, w);
  }

  /** A trailing slash makes the last segment empty, so no page is active. */
  lemma TrailingSlashInactive(pathname: string)
    requires 0 < |pathname| && pathname[|pathname| - 1] == '/'
    ensures ActivePath(pathname) == ""
  {
  }

  datatype Button = Home | Rewards | Logs
  datatype Variant = Outline | Ghost

  /** The menu buttons: Home always, Rewards and Logs only for a chosen node. */
  function MenuButtons(nodeAddress: string): (bs: seq<Button>)
    ensures 0 < |bs| && bs[0] == Home
    ensures Rewards in bs <==> nodeAddress != ""
    ensures Logs in bs <==> nodeAddress != ""
  {
    [Home] + (if nodeAddress != "" then [Rewards, Logs] else [])
  }

  /** A button is outlined when the active path is the one it compares against; Home compares against '/'. */
  function ButtonVariant(b: Button, activePath: string): Variant {
    match b
    case Home => if activePath == "/" then Outline else Ghost
    case Rewards => if activePath == RewardsPath then Outline else Ghost
    case Logs => if activePath == ErrorsPath then Outline else Ghost
  }

  /** The Home button is never outlined: no last segment contains a '/'. */
  lemma HomeNeverOutlined(pathname: string)
    ensures ButtonVariant(Home, ActivePath(pathname)) == Ghost
  {
  }

  /** At most one button is outlined for any pathname. */
  lemma AtMostOneOutlined(pathname: string, a: Button, b: Button)
    requires ButtonVariant(a, ActivePath(pathname)) == Outline
    requires ButtonVariant(b, ActivePath(pathname)) == Outline
    ensures a == b
  {
  }

  /** The links the Rewards and Logs buttons follow. */
  function RewardsLink(nodeAddress: string): string {
    "/node/" + nodeAddress + "/" + RewardsPath
  }

  function LogsLink(nodeAddress: string): string {
    "/node/" + nodeAddress + "/" + ErrorsPath
  }

  /** Following the Rewards or Logs link outlines that same button, whatever the address. */
  lemma LinksActivateTheirButton(nodeAddress: string)
    ensures ButtonVariant(Rewards, ActivePath(RewardsLink(nodeAddress))) == Outline
    ensures ButtonVariant(Logs, ActivePath(LogsLink(nodeAddress))) == Outline
  {
    var r := RewardsLink(nodeAddress);
    assert r[|r| - |RewardsPath| - 1..] == "/" + RewardsPath;
    ActiveIff(r, RewardsPath);
    var l := LogsLink(nodeAddress);
    assert l[|l| - |ErrorsPath| - 1..] == "/" + ErrorsPath;
    ActiveIff(l, ErrorsPath);
  }
}
