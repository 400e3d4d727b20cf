/**
 * The node chooser: the bookmark star, the list of saved addresses offered in
 * the popover and the labels the addresses are shown with. The saved list
 * lives in local storage and may be undefined (None).
 */
module NodeChooser {
  import opened Wrappers
  import Js
  import Seqs

  /** `savedAddresses?.includes(node.address) ?? false`. */
  function AddressIsSaved(saved: Option<seq<string>>, address: string): (b: bool)
    ensures b <==> saved.Some? && address in saved.value
  {
    match saved
    case Some(s) => address in s
    case None => false
  }

  /**
   * The star's click: nothing for an empty address or an undefined list; a
   * saved address is spliced out at its first index; an unsaved one is pushed.
   */
  function ToggleBookmark(saved: Option<seq<string>>, address: string): (r: Option<seq<string>>)
    ensures address == "" || saved.None? ==> r == saved
    ensures address != "" && saved.Some? && address !in saved.value ==> r == Some(saved.value + [address])
    ensures address != "" && saved.Some? && address in saved.value ==>
      var i := Seqs.IndexOf(saved.value, address);
      && r.Some? && 0 <= i < |saved.value|
      && saved.value[i] == address && address !in saved.value[..i]
      && r.value == saved.value[..i] + saved.value[i + 1..]
      && multiset(r.value) == multiset(saved.value) - multiset{address}
  {
    if address == "" || saved.None? then saved
    else if AddressIsSaved(saved, address) then
      var s := saved.value;
      var index := Seqs.IndexOf(s, address);
      if index > -1 then
        Seqs.RemoveFirstIsSplice(s, address);
        Some(Seqs.RemoveFirst(s, address))
      else saved
    else Some(saved.value + [address])
  }

  /** Bookmarking an unsaved address and then un-bookmarking it restores the list. */
  lemma ToggleTwiceRestores(s: seq<string>, address: string)
    requires address != "" && address !in s
    ensures ToggleBookmark(ToggleBookmark(Some(s), address), address) == Some(s)
  {
    var t := s + [address];
    assert t[..|s|] == s;
    assert Seqs.IndexOf(t, address) == |s|;
    assert t[..|s|] + t[|s| + 1..] == s;
  }

  /** Toggling flips whether the address is saved, when it occurs at most once. */
  lemma ToggleFlipsSaved(s: seq<string>, address: string)
    requires address != ""
    requires multiset(s)[address] <= 1
    ensures AddressIsSaved(ToggleBookmark(Some(s), address), address) == !AddressIsSaved(Some(s), address)
  {
    var r := ToggleBookmark(Some(s), address);
    if address in s {
      assert multiset(r.value)[address] == 0;
    }
  }

  /** `a => a !== address`: the test the popover filters the saved list with. */
  function IsOther(address: string): string -> bool {
    a => a != address
  }

  /** The popover's entries: the saved addresses other than the current one, in stored order. */
  function OtherSaved(saved: Option<seq<string>>, address: string): (r: seq<string>)
    ensures saved.Some? ==> r == Seqs.Filter(saved.value, IsOther(address))
    ensures address !in r
    ensures saved.Some? ==> forall a :: a != address ==> multiset(r)[a] == multiset(saved.value)[a]
    ensures saved.None? ==> r == []
  {
    match saved
    case None => []
    case Some(s) =>
      var r := Seqs.Filter(s, IsOther(address));
      forall a | a != address
        ensures multiset(r)[a] == multiset(s)[a]
      {
        Seqs.FilterMultiset(s, IsOther(address), a);
      }
      r
  }

  /** Bookmarking the current address does not change what the popover offers. */
  lemma PopoverIgnoresCurrent(s: seq<string>, address: string)
    requires address != "" && address !in s
    ensures OtherSaved(ToggleBookmark(Some(s), address), address) == OtherSaved(Some(s), address)
  {
    Seqs.FilterStep(s + [address], IsOther(address));
    assert (s + [address])[..|s|] == s;
  }

  /** The current node's label: first 4 and last 4 characters. */
  function CurrentLabel(address: string): (shown: string)
    ensures |address| >= 4 ==> shown == address[..4] + "..." + address[|address| - 4..]
    ensures |address| < 4 ==> shown == address + "..." + address
  {
    Js.Abbreviate(address, 4, 4)
  }

  /** A saved node's label: first 12 and last 4 characters. */
  function SavedLabel(address: string): (shown: string)
    ensures |address| >= 12 ==> shown == address[..12] + "..." + address[|address| - 4..] && |shown| == 19
    ensures 4 <= |address| < 12 ==> shown == address + "..." + address[|address| - 4..]
    ensures |address| < 4 ==> shown == address + "..." + address
  {
    Js.Abbreviate(address, 12, 4)
  }
}
