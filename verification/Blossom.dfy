// Which manifest a Blossom server's blob list leads to: the newest one of the repository.
module Blossom {
  import opened Options
  import opened BundleStore

  // `created` is a Unix time; blobs without one count as the oldest.
  datatype Blob = Blob(url: string, contentType: Option<string>, created: Option<nat>)

  // What the server answers when asked for the blobs of an owner.
  datatype Listing = UnknownOwner | Unreadable | Blobs(blobs: seq<Blob>)

  datatype Lookup = Found(manifest: Manifest) | NoManifest | ListFailed | DownloadFailed(url: string)

  const MANIFEST_TYPE := "application/x-git-refs+json"

  function Created(b: Blob): nat
  {
    if b.created.Some? then b.created.value else 0
  }

  predicate IsCandidate(blobs: seq<Blob>, i: nat)
  {
    i < |blobs| && blobs[i].contentType == Some(MANIFEST_TYPE)
  }

  // Newer blobs first, in list order where equally new.
  predicate Before(blobs: seq<Blob>, i: nat, j: nat)
    requires i < |blobs| && j < |blobs|
  {
    Created(blobs[i]) > Created(blobs[j]) || (Created(blobs[i]) == Created(blobs[j]) && i < j)
  }

  // The stable sort by falling creation time.
  function Insert(blobs: seq<Blob>, sorted: seq<nat>, x: nat): seq<nat>
    requires x < |blobs| && forall k | 0 <= k < |sorted| :: sorted[k] < |blobs|
  {
    if sorted == [] then [x]
    else if Created(blobs[x]) > Created(blobs[sorted[0]]) then [x] + sorted
    else [sorted[0]] + Insert(blobs, sorted[1..], x)
  }

  function NewestFirst(blobs: seq<Blob>, rows: seq<nat>): (r: seq<nat>)
    requires forall k | 0 <= k < |rows| :: rows[k] < |blobs|
    ensures multiset(r) == multiset(rows)
    ensures forall k | 0 <= k < |r| :: r[k] < |blobs|
  {
    if rows == [] then [] else
      var n := |rows| - 1;
      assert rows == rows[..n] + [rows[n]];
      InsertKeepsRows(blobs, NewestFirst(blobs, rows[..n]), rows[n]);
      Insert(blobs, NewestFirst(blobs, rows[..n]), rows[n])
  }

  lemma {:induction false} InsertKeepsRows(blobs: seq<Blob>, sorted: seq<nat>, x: nat)
    requires x < |blobs| && forall k | 0 <= k < |sorted| :: sorted[k] < |blobs|
    ensures multiset(Insert(blobs, sorted, x)) == multiset(sorted) + multiset{x}
    ensures forall k | 0 <= k < |Insert(blobs, sorted, x)| :: Insert(blobs, sorted, x)[k] < |blobs|
  {
    if sorted != [] {
      assert sorted == [sorted[0]] + sorted[1..];
      InsertKeepsRows(blobs, sorted[1..], x);
    }
  }

  predicate Ordered(blobs: seq<Blob>, rows: seq<nat>)
  {
    && (forall k | 0 <= k < |rows| :: rows[k] < |blobs|)
    && (forall k, l | 0 <= k < l < |rows| :: Before(blobs, rows[k], rows[l]))
  }

  lemma {:induction false} InsertKeepsOrder(blobs: seq<Blob>, sorted: seq<nat>, x: nat)
    requires x < |blobs| && Ordered(blobs, sorted) && forall k | 0 <= k < |sorted| :: sorted[k] < x
    ensures Ordered(blobs, Insert(blobs, sorted, x))
  {
    InsertKeepsRows(blobs, sorted, x);
    if sorted != [] && Created(blobs[x]) <= Created(blobs[sorted[0]]) {
      var rest := Insert(blobs, sorted[1..], x);
      InsertKeepsOrder(blobs, sorted[1..], x);
      InsertKeepsRows(blobs, sorted[1..], x);
      forall k | 0 <= k < |rest|
        ensures Before(blobs, sorted[0], rest[k])
      {
        assert rest[k] in multiset(rest);
      }
    }
  }

  lemma {:induction false} NewestFirstIsOrdered(blobs: seq<Blob>, rows: seq<nat>)
    requires forall k | 0 <= k < |rows| :: rows[k] < |blobs|
    requires forall k, l | 0 <= k < l < |rows| :: rows[k] < rows[l]
    ensures Ordered(blobs, NewestFirst(blobs, rows))
  {
    if rows != [] {
      var n := |rows| - 1;
      var sorted := NewestFirst(blobs, rows[..n]);
      NewestFirstIsOrdered(blobs, rows[..n]);
      forall k | 0 <= k < |sorted|
        ensures sorted[k] < rows[n]
      {
        assert sorted[k] in multiset(rows[..n]);
      }
      InsertKeepsOrder(blobs, sorted, rows[n]);
    }
  }

  // Downloading blob i ends the search.
  predicate Ends(blobs: seq<Blob>, download: string -> Option<Manifest>, repo: string, i: nat)
  {
    && IsCandidate(blobs, i)
    && var m := download(blobs[i].url);
    m.None? || m.value.repo == repo
  }

  // The blob the search ends at: no newer one would have ended it.
  predicate EndsFirst(blobs: seq<Blob>, download: string -> Option<Manifest>, repo: string, i: nat)
  {
    && Ends(blobs, download, repo, i)
    && forall j: nat | j < |blobs| && Ends(blobs, download, repo, j) :: j == i || Before(blobs, i, j)
  }

  lemma FirstInOrder(blobs: seq<Blob>, download: string -> Option<Manifest>, repo: string, sorted: seq<nat>, k: nat)
    requires k < |sorted| && Ordered(blobs, sorted) && Ends(blobs, download, repo, sorted[k])
    requires forall j: nat | j < |blobs| && IsCandidate(blobs, j) :: j in sorted
    requires forall l | 0 <= l < k :: !Ends(blobs, download, repo, sorted[l])
    ensures EndsFirst(blobs, download, repo, sorted[k])
  {
  }

  method Candidates(blobs: seq<Blob>) returns (rows: seq<nat>)
    ensures forall k | 0 <= k < |rows| :: IsCandidate(blobs, rows[k])
    ensures forall k, l | 0 <= k < l < |rows| :: rows[k] < rows[l]
    ensures forall j: nat | j < |blobs| && IsCandidate(blobs, j) :: j in rows
  {
    rows := [];
    for i := 0 to |blobs|
      invariant forall k | 0 <= k < |rows| :: rows[k] < i && IsCandidate(blobs, rows[k])
      invariant forall k, l | 0 <= k < l < |rows| :: rows[k] < rows[l]
      invariant forall j: nat | j < i && IsCandidate(blobs, j) :: j in rows
    {
      if blobs[i].contentType == Some(MANIFEST_TYPE) {
        rows := rows + [i];
      }
    }
  }

  // The blobs to look at, newest first.
  method SortedCandidates(blobs: seq<Blob>) returns (sorted: seq<nat>)
    ensures Ordered(blobs, sorted)
    ensures forall k | 0 <= k < |sorted| :: IsCandidate(blobs, sorted[k])
    ensures forall j: nat | j < |blobs| && IsCandidate(blobs, j) :: j in sorted
  {
    var rows := Candidates(blobs);
    sorted := NewestFirst(blobs, rows);
    NewestFirstIsOrdered(blobs, rows);
    forall k | 0 <= k < |sorted|
      ensures IsCandidate(blobs, sorted[k])
    {
      assert sorted[k] in multiset(rows);
    }
    forall j: nat | j < |blobs| && IsCandidate(blobs, j)
      ensures j in sorted
    {
      assert j in multiset(rows);
    }
  }

  // The search ends at blob i, and at none before: of all manifest blobs that cannot be downloaded or
  // are of the repository it is the newest, the first in the list among equals.
  ghost predicate NewestEnd(blobs: seq<Blob>, download: string -> Option<Manifest>, repo: string, i: nat)
  {
    && i < |blobs| && blobs[i].contentType == Some("application/x-git-refs+json")
    && (download(blobs[i].url).None? || download(blobs[i].url).value.repo == repo)
    && forall j | 0 <= j < |blobs| && blobs[j].contentType == Some("application/x-git-refs+json")
                  && (download(blobs[j].url).None? || download(blobs[j].url).value.repo == repo) ::
         && (blobs[j].created.Some? && blobs[j].created.value > 0 ==>
               blobs[i].created.Some? && blobs[i].created.value >= blobs[j].created.value)
         && (Created(blobs[i]) == Created(blobs[j]) ==> i <= j)
  }

  lemma EndsFirstIsNewest(blobs: seq<Blob>, download: string -> Option<Manifest>, repo: string, i: nat)
    requires EndsFirst(blobs, download, repo, i)
    ensures NewestEnd(blobs, download, repo, i)
  {
    forall j | 0 <= j < |blobs| && blobs[j].contentType == Some("application/x-git-refs+json")
               && (download(blobs[j].url).None? || download(blobs[j].url).value.repo == repo)
      ensures j == i || Before(blobs, i, j)
    {
      assert Ends(blobs, download, repo, j);
    }
  }

  // `download` gets and parses a manifest, or fails.
  method FetchManifest(repo: string, listing: Listing, download: string -> Option<Manifest>) returns (r: Lookup)
    ensures r.ListFailed? <==> listing.Unreadable?
    ensures listing.UnknownOwner? ==> r == NoManifest
    ensures listing.Blobs? && r.NoManifest? ==>
              forall i | 0 <= i < |listing.blobs|
                         && listing.blobs[i].contentType == Some("application/x-git-refs+json") ::
                var m := download(listing.blobs[i].url); m.Some? && m.value.repo != repo
    ensures listing.Blobs? && r.Found? ==>
              && r.manifest.repo == repo
              && exists i: nat :: NewestEnd(listing.blobs, download, repo, i)
                                  && download(listing.blobs[i].url) == Some(r.manifest)
    ensures listing.Blobs? && r.DownloadFailed? ==>
              exists i: nat :: NewestEnd(listing.blobs, download, repo, i)
                               && listing.blobs[i].url == r.url && download(r.url) == None
  {
    if listing.UnknownOwner? {
      return NoManifest;
    }
    if listing.Unreadable? {
      return ListFailed;
    }
    var blobs := listing.blobs;
    var sorted := SortedCandidates(blobs);
    for k := 0 to |sorted|
      invariant forall l | 0 <= l < k :: !Ends(blobs, download, repo, sorted[l])
    {
      var m := download(blobs[sorted[k]].url);
      if m.None? {
        FirstInOrder(blobs, download, repo, sorted, k);
        EndsFirstIsNewest(blobs, download, repo, sorted[k]);
        return DownloadFailed(blobs[sorted[k]].url);
      }
      if m.value.repo == repo {
        FirstInOrder(blobs, download, repo, sorted, k);
        EndsFirstIsNewest(blobs, download, repo, sorted[k]);
        return Found(m.value);
      }
    }
    forall i: nat | i < |blobs| && IsCandidate(blobs, i)
      ensures !Ends(blobs, download, repo, i)
    {
      assert i in sorted;
    }
    assert forall i: nat | i < |blobs| && blobs[i].contentType == Some(MANIFEST_TYPE) :: IsCandidate(blobs, i);
    r := NoManifest;
  }
}
