/**
 * The end of `download_files`: wait until the temporary directory holds no
 * partial download, choose an archive name that does not overwrite anything in
 * the downloads folder, and zip the directory's files under that name.
 *
 * The filesystem is abstracted: a directory listing is a sequence of names, the
 * files already in the downloads folder a set of paths, and the directory's
 * progress over time the sequence of listings successive polls would see.
 */
module Archive {
  import opened Wrappers
  import opened Text

  const PartialSuffix := ".crdownload"
  const TempSuffix := ".tmp"

  /** A file the browser is still writing. */
  predicate InProgress(name: string) {
    EndsWith(name, PartialSuffix) || EndsWith(name, TempSuffix)
  }

  /** Whatever a file is called, its partial-download names hold the wait up. */
  lemma PartialNamesInProgress(base: string)
    ensures InProgress(base + PartialSuffix) && InProgress(base + TempSuffix)
  {
    var partial := base + PartialSuffix;
    var temp := base + TempSuffix;
    assert partial[|partial| - |PartialSuffix|..] == PartialSuffix;
    assert temp[|temp| - |TempSuffix|..] == TempSuffix;
  }

  /** The poll's condition: `any(... for filename in listing)`, in listing order. */
  function AnyInProgress(listing: seq<string>): (r: bool)
    ensures r <==> exists i :: 0 <= i < |listing| && InProgress(listing[i])
  {
    if listing == [] then false
    else InProgress(listing[0]) || AnyInProgress(listing[1..])
  }

  /** The downloads have settled: no name in the listing is a partial download. */
  function Settled(listing: seq<string>): (r: bool)
    ensures r <==> forall i :: 0 <= i < |listing| ==> !InProgress(listing[i])
  {
    !AnyInProgress(listing)
  }

  const PlainName := "/combined_files.zip"
  const NumberedHead := "/combined_files ("
  const NumberedTail := ").zip"

  /** The k-th candidate: `combined_files.zip`, then `combined_files (k).zip`. */
  function ArchivePath(folder: string, k: nat): (path: string) {
    if k == 0 then folder + PlainName
    else folder + NumberedHead + NatToString(k) + NumberedTail
  }

  /** Which candidate a path is, if it is one. */
  function ParseArchivePath(folder: string, path: string): (r: Option<nat>) {
    if path == folder + PlainName then Some(0)
    else
      var lo := |folder| + |NumberedHead|;
      var hi := |path| - |NumberedTail|;
      if lo < hi && StartsWith(path, folder + NumberedHead) && EndsWith(path, NumberedTail)
         && AllDigits(path[lo..hi])
      then Some(ParseNat(path[lo..hi]))
      else None
  }

  /** Each candidate names its own position in the sequence. */
  lemma ArchivePathRoundTrip(folder: string, k: nat)
    ensures ParseArchivePath(folder, ArchivePath(folder, k)) == Some(k)
  {
    if k > 0 {
      var digits := NatToString(k);
      var path := ArchivePath(folder, k);
      assert |path| != |folder + PlainName|;
      assert path[..|folder| + |NumberedHead|] == folder + NumberedHead;
      assert path[|path| - |NumberedTail|..] == NumberedTail;
      assert path[|folder| + |NumberedHead|..|path| - |NumberedTail|] == digits;
      NatToStringRoundTrip(k);
    }
  }

  /** The candidates are pairwise different, so every step of the search tries a new name. */
  lemma ArchivePathsDistinct(folder: string, j: nat, k: nat)
    requires j != k
    ensures ArchivePath(folder, j) != ArchivePath(folder, k)
  {
    ArchivePathRoundTrip(folder, j);
    ArchivePathRoundTrip(folder, k);
  }

  /** Candidate k is free and every earlier candidate is taken. */
  ghost predicate FirstFree(existing: set<string>, folder: string, k: nat) {
    && ArchivePath(folder, k) !in existing
    && forall j :: 0 <= j < k ==> ArchivePath(folder, j) in existing
  }

  /** At most one candidate is the first free one. */
  lemma FirstFreeUnique(existing: set<string>, folder: string, j: nat, k: nat)
    requires FirstFree(existing, folder, j) && FirstFree(existing, folder, k)
    ensures j == k
  {
  }

  /** With `combined_files.zip` present and `combined_files (1).zip` absent, the search picks the latter. */
  lemma SecondRunName(existing: set<string>, folder: string, k: nat)
    requires ArchivePath(folder, 0) in existing && ArchivePath(folder, 1) !in existing
    requires FirstFree(existing, folder, k)
    ensures ArchivePath(folder, k) == folder + "/combined_files (1).zip"
  {
    assert FirstFree(existing, folder, 1);
    FirstFreeUnique(existing, folder, 1, k);
    assert NatToString(1) == "1";
  }

  /** The names the search has found taken: exactly candidates 0 .. n-1. */
  ghost predicate TakenBelow(existing: set<string>, folder: string, taken: set<string>, n: nat) {
    && (forall j :: 0 <= j < n ==> ArchivePath(folder, j) in taken)
    && (forall q :: q in taken ==> exists j :: 0 <= j < n && q == ArchivePath(folder, j))
    && taken <= existing && |taken| == n
  }

  /** One more taken candidate: the set of taken names grows by one, still inside `existing`. */
  lemma TakenGrows(existing: set<string>, folder: string, taken: set<string>, n: nat)
    requires TakenBelow(existing, folder, taken, n)
    requires ArchivePath(folder, n) in existing
    ensures TakenBelow(existing, folder, taken + {ArchivePath(folder, n)}, n + 1)
    ensures n + 1 <= |existing|
  {
    var path := ArchivePath(folder, n);
    forall j | 0 <= j < n ensures ArchivePath(folder, j) != path {
      ArchivePathsDistinct(folder, j, n);
    }
    assert path !in taken;
    var grown := taken + {path};
    assert existing == grown + (existing - grown);
  }

  /**
   * The `while os.path.isfile(zip_path)` search. It stops because the
   * candidates are all different and only finitely many of them can exist.
   */
  method PickArchivePath(existing: set<string>, folder: string) returns (path: string, index: nat)
    ensures path !in existing
    ensures path == ArchivePath(folder, index)
    ensures forall j :: 0 <= j < index ==> ArchivePath(folder, j) in existing
  {
    path := ArchivePath(folder, 0);
    var counter: nat := 1;
    ghost var taken: set<string> := {};
    while path in existing
      invariant path == ArchivePath(folder, counter - 1)
      invariant TakenBelow(existing, folder, taken, counter - 1)
      decreases |existing| - |taken|
    {
      TakenGrows(existing, folder, taken, counter - 1);
      taken := taken + {path};
      path := ArchivePath(folder, counter);
      counter := counter + 1;
    }
    index := counter - 1;
  }

  /** What gets written: the archive's path and the names zipped into it, flat. */
  datatype Zip = Zip(path: string, members: seq<string>)

  /**
   * Poll the temporary directory until a listing shows no partial download,
   * then zip that listing under the first free name. `polls` holds the
   * listings successive polls see; when none of them has settled, the source
   * would still be sleeping and nothing is written (`None`).
   */
  method ArchiveWhenSettled(polls: seq<seq<string>>, existing: set<string>, folder: string)
    returns (written: Option<Zip>)
    ensures written.None? <==> forall i :: 0 <= i < |polls| ==> !Settled(polls[i])
    ensures written.Some? ==>
      exists i :: 0 <= i < |polls| && Settled(polls[i]) && written.value.members == polls[i]
        && forall j :: 0 <= j < i ==> !Settled(polls[j])
    ensures written.Some? ==>
      written.value.path !in existing
      && exists k: nat :: written.value.path == ArchivePath(folder, k) && FirstFree(existing, folder, k)
  {
    var i := 0;
    while i < |polls| && AnyInProgress(polls[i])
      invariant 0 <= i <= |polls|
      invariant forall j :: 0 <= j < i ==> !Settled(polls[j])
    {
      i := i + 1;
    }
    if i == |polls| {
      written := None;
    } else {
      var path, k := PickArchivePath(existing, folder);
      assert FirstFree(existing, folder, k);
      written := Some(Zip(path, polls[i]));
    }
  }
}
