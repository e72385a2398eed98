/**
 * The name-copy step of getRepositories: an array of the REPORTED size is
 * allocated and the names of the returned entries are written into it by
 * index. A listing with more entries than its reported size makes the
 * copy index past the end of the array, a runtime panic; a negative
 * reported size makes the allocation panic.
 */
module Repositories {
  import opened Common

  datatype Repository = Repository(name: string)

  /** A decoded repository listing: the reported size and the entries returned. */
  datatype RepositoryListing = RepositoryListing(size: int, values: seq<Repository>)

  /** The runtime panics of the copy. */
  datatype Panic = NegativeLength(size: int) | IndexOutOfRange(index: int, length: int)

  /** The names array as a value: reported-size long, entry names first, empty strings after. */
  function NamesOf(listing: RepositoryListing): (r: Result<seq<string>, Panic>)
  {
    var values := listing.values;
    if listing.size < 0 then Err(NegativeLength(listing.size))
    else if |values| > listing.size then Err(IndexOutOfRange(listing.size, listing.size))
    else Ok(seq(listing.size, i requires 0 <= i < listing.size => if i < |values| then values[i].name else ""))
  }

  /** Allocates the names array and fills it in listing order. */
  method CopyNames(listing: RepositoryListing) returns (r: Result<seq<string>, Panic>)
    ensures r.Err? <==> listing.size < 0 || |listing.values| > listing.size
    ensures listing.size < 0 ==> r == Err(NegativeLength(listing.size))
    ensures 0 <= listing.size < |listing.values| ==> r == Err(IndexOutOfRange(listing.size, listing.size))
    ensures r.Ok? ==> |r.value| == listing.size
    ensures r.Ok? ==> forall i :: 0 <= i < |listing.values| ==> r.value[i] == listing.values[i].name
    ensures r.Ok? ==> forall i :: |listing.values| <= i < |r.value| ==> r.value[i] == ""
    ensures r == NamesOf(listing)
  {
    if listing.size < 0 {
      return Err(NegativeLength(listing.size));
    }
    var names := new string[listing.size](_ => "");
    var idx := 0;
    while idx < |listing.values|
      invariant 0 <= idx <= |listing.values| && idx <= names.Length
      invariant forall i :: 0 <= i < idx ==> names[i] == listing.values[i].name
      invariant forall i :: idx <= i < names.Length ==> names[i] == ""
    {
      if idx >= names.Length {
        assert idx == listing.size < |listing.values|;
        return Err(IndexOutOfRange(idx, names.Length));
      }
      names[idx] := listing.values[idx].name;
      idx := idx + 1;
    }
    ghost var expected := NamesOf(listing).value;
    assert names[..] == expected;
    r := Ok(names[..]);
  }

  /**
   * When fewer entries come back than the reported size, the names array
   * still has the reported length and its tail is made of empty names.
   */
  lemma ShortListingPadsWithEmptyNames(listing: RepositoryListing)
    requires |listing.values| < listing.size
    ensures NamesOf(listing).Ok?
    ensures |NamesOf(listing).value| == listing.size
    ensures "" in NamesOf(listing).value[|listing.values|..]
  {
    var names := NamesOf(listing).value;
    assert names[|listing.values|..][0] == "";
  }
}
