// The bundle storage of the git remote helpers: thin bundles, the refs manifest that lists them,
// and the push and fetch of one helper on its own.
module BundleStore {
  import opened Options
  import opened CommitGraph
  import opened HelperTypes

  type Sha = string

  // What a bundle brings, and the objects it expects to be there already.
  datatype Bundle = Bundle(prerequisites: set<Oid>, objects: set<Oid>)

  type Store = map<Sha, Bundle>

  datatype Manifest = Manifest(
    repo: string,
    refs: map<string, Oid>,
    head: Option<string>,
    bundles: seq<Sha>,
    prevManifest: Option<Sha>)

  // A local repository: its objects, what its names resolve to, and the target of HEAD.
  datatype LocalGit = LocalGit(objects: set<Oid>, names: map<string, Oid>, head: Option<string>)

  // ---------------------------------------------------------------------------------------------
  // git, as far as the helpers use it

  predicate Resolves(git: LocalGit, srcs: seq<string>)
  {
    forall i | 0 <= i < |srcs| :: srcs[i] in git.names
  }

  function Wanted(names: map<string, Oid>, srcs: seq<string>): set<Oid>
  {
    set i | 0 <= i < |srcs| && srcs[i] in names :: names[srcs[i]]
  }

  // git bundle create - ^have... src...: what the sources reach and the excluded objects do not;
  // the excluded neighbours are prerequisites. It fails on an unknown name, on an excluded object
  // that is not there, and rather than make an empty bundle.
  ghost function CreateBundle(links: Links, git: LocalGit, haves: set<Oid>, srcs: seq<string>): Option<Bundle>
  {
    var excluded := Reach(links, haves);
    var objects := Reach(links, Wanted(git.names, srcs)) - excluded;
    if !Resolves(git, srcs) || !(haves <= git.objects) || objects == {} then None else
      Some(Bundle((set p | p in excluded && exists c :: c in objects && c in links && p in links[c]), objects))
  }

  // git bundle unbundle: refused unless the prerequisites are there.
  function Unbundle(objects: set<Oid>, b: Bundle): Option<set<Oid>>
  {
    if b.prerequisites <= objects then Some(objects + b.objects) else None
  }

  // ---------------------------------------------------------------------------------------------
  // The manifest a push builds

  function Sources(specs: seq<PushSpec>): seq<string>
  {
    if specs == [] then [] else
      Sources(specs[..|specs| - 1])
      + (if specs[|specs| - 1].src == "" then [] else [specs[|specs| - 1].src])
  }

  // What rev-parse says to the source of each spec, None for an error. It is asked once per spec,
  // and the names may change in between. Deletions do not ask.
  type Answers = seq<Option<Oid>>

  // The answer at a moment when the names are these.
  function Answer(s: PushSpec, names: map<string, Oid>): Option<Oid>
  {
    if s.src != "" && s.src in names then Some(names[s.src]) else None
  }

  // The refs after the specs, in order: a deletion removes, a name that resolves is set, a name
  // that does not is skipped.
  function UpdatedRefs(refs: map<string, Oid>, specs: seq<PushSpec>, found: Answers): map<string, Oid>
    requires |found| == |specs|
  {
    if specs == [] then refs else
      var n := |specs| - 1;
      var before := UpdatedRefs(refs, specs[..n], found[..n]);
      if specs[n].src == "" then before - {specs[n].dst}
      else if found[n].Some? then before[specs[n].dst := found[n].value]
      else before
  }

  // A spec is reported as done unless its source does not resolve.
  ghost predicate ResultsTell(specs: seq<PushSpec>, found: Answers, results: seq<PushResult>)
    requires |found| == |specs|
  {
    && |results| == |specs|
    && forall i | 0 <= i < |results| ::
         && results[i].dst == specs[i].dst
         && (results[i].result == Accepted <==> specs[i].src == "" || found[i].Some?)
         && (results[i].result.Refused? ==>
               results[i].result.message == "rev-parse failed: " + RevParseError(specs[i].src))
  }

  function RevParseError(src: string): string
  {
    "git rev-parse " + src + " failed"
  }

  function PrevRefs(prev: Option<Manifest>): map<string, Oid>
  {
    if prev.Some? then prev.value.refs else map[]
  }

  function PrevBundles(prev: Option<Manifest>): seq<Sha>
  {
    if prev.Some? then prev.value.bundles else []
  }

  // `bundle` is what was stored for this push, if anything.
  function NewBundles(prev: Option<Manifest>, bundle: Option<Sha>): seq<Sha>
  {
    PrevBundles(prev) + if bundle.Some? then [bundle.value] else []
  }

  function NewManifest(repo: string, prev: Option<Manifest>, specs: seq<PushSpec>, found: Answers,
                       head: Option<string>, bundle: Option<Sha>): Manifest
    requires |found| == |specs|
  {
    var bundles := PrevBundles(prev);
    Manifest(repo,
             UpdatedRefs(PrevRefs(prev), specs, found),
             head,
             NewBundles(prev, bundle),
             if bundles == [] then None else Some(bundles[|bundles| - 1]))
  }

  // ---------------------------------------------------------------------------------------------
  // Self-contained lists of bundles

  // What the listed bundles hold together.
  function Contents(store: Store, shas: seq<Sha>): set<Oid>
  {
    if shas == [] then {} else
      Contents(store, shas[..|shas| - 1])
      + (if shas[|shas| - 1] in store then store[shas[|shas| - 1]].objects else {})
  }

  // Every listed bundle is stored, the ones before it hold its prerequisites, and after each of
  // them nothing an object refers to is missing.
  ghost predicate Replayable(links: Links, store: Store, shas: seq<Sha>)
  {
    shas == [] ||
    var init, sha := shas[..|shas| - 1], shas[|shas| - 1];
    && Replayable(links, store, init)
    && sha in store
    && store[sha].prerequisites <= Contents(store, init)
    && Closed(links, Contents(store, shas))
  }

  // Replaying the bundles of the manifest from nothing yields every ref with all it refers to.
  ghost predicate SelfContained(links: Links, store: Store, m: Manifest)
  {
    && Replayable(links, store, m.bundles)
    && m.refs.Values <= Contents(store, m.bundles)
  }

  ghost predicate Extends(store: Store, store': Store)
  {
    forall s | s in store :: s in store' && store'[s] == store[s]
  }

  lemma {:induction false} ReplayableGrows(links: Links, store: Store, store': Store, shas: seq<Sha>)
    requires Replayable(links, store, shas) && Extends(store, store')
    ensures Replayable(links, store', shas) && Contents(store', shas) == Contents(store, shas)
  {
    if shas != [] {
      ReplayableGrows(links, store, store', shas[..|shas| - 1]);
    }
  }

  lemma {:induction false} ReplayableIsClosed(links: Links, store: Store, shas: seq<Sha>)
    requires Replayable(links, store, shas)
    ensures Closed(links, Contents(store, shas))
  {
  }

  lemma {:induction false} ReplayablePrefix(links: Links, store: Store, shas: seq<Sha>, n: nat)
    requires Replayable(links, store, shas) && n <= |shas|
    ensures Replayable(links, store, shas[..n])
  {
    if n < |shas| {
      ReplayablePrefix(links, store, shas[..|shas| - 1], n);
      assert shas[..|shas| - 1][..n] == shas[..n];
    } else {
      assert shas[..n] == shas;
    }
  }

  // The index of the last spec for d that is not skipped, or -1: those after it are for other refs,
  // or did not resolve.
  function LastFor(specs: seq<PushSpec>, found: Answers, d: string): (i: int)
    requires |found| == |specs|
    ensures -1 <= i < |specs|
    ensures i >= 0 ==> specs[i].dst == d && (specs[i].src == "" || found[i].Some?)
    ensures forall k | i < k < |specs| && specs[k].dst == d :: specs[k].src != "" && found[k].None?
  {
    if specs == [] then -1 else
      var n := |specs| - 1;
      if specs[n].dst == d && (specs[n].src == "" || found[n].Some?) then n
      else LastFor(specs[..n], found[..n], d)
  }

  // Each ref ends up as the last spec for it says, and is untouched if there is none.
  lemma {:induction false} LastSpecWins(refs: map<string, Oid>, specs: seq<PushSpec>, found: Answers, d: string)
    requires |found| == |specs|
    ensures var r, i := UpdatedRefs(refs, specs, found), LastFor(specs, found, d);
            if i == -1 then (d in r <==> d in refs) && (d in r ==> r[d] == refs[d])
            else if specs[i].src == "" then d !in r
            else d in r && r[d] == found[i].value
  {
    if specs != [] {
      var n := |specs| - 1;
      LastSpecWins(refs, specs[..n], found[..n], d);
    }
  }

  // What the specs that win set their refs to is in `held`.
  predicate SetsIn(specs: seq<PushSpec>, found: Answers, held: set<Oid>)
    requires |found| == |specs|
  {
    forall i | 0 <= i < |specs| && specs[i].src != "" && LastFor(specs, found, specs[i].dst) == i ::
      found[i].value in held
  }

  lemma {:induction false} SetsInIff(refs: map<string, Oid>, specs: seq<PushSpec>, found: Answers, held: set<Oid>)
    requires |found| == |specs| && refs.Values <= held
    ensures UpdatedRefs(refs, specs, found).Values <= held <==> SetsIn(specs, found, held)
  {
    var r := UpdatedRefs(refs, specs, found);
    if r.Values <= held {
      forall i | 0 <= i < |specs| && specs[i].src != "" && LastFor(specs, found, specs[i].dst) == i
        ensures found[i].value in held
      {
        LastSpecWins(refs, specs, found, specs[i].dst);
      }
    }
    if SetsIn(specs, found, held) {
      forall d | d in r
        ensures r[d] in held
      {
        LastSpecWins(refs, specs, found, d);
      }
    }
  }

  lemma {:induction false} SourcesHold(specs: seq<PushSpec>, i: nat)
    requires i < |specs| && specs[i].src != ""
    ensures specs[i].src in Sources(specs)
  {
    if i < |specs| - 1 {
      SourcesHold(specs[..|specs| - 1], i);
    }
  }

  // What git is asked to bundle: the source of every spec that has one, and nothing else.
  lemma {:induction false} SourcesIff(specs: seq<PushSpec>, src: string)
    ensures src in Sources(specs) <==> src != "" && exists i :: 0 <= i < |specs| && specs[i].src == src
  {
    if specs != [] {
      var n := |specs| - 1;
      SourcesIff(specs[..n], src);
      if i :| 0 <= i < |specs| && specs[i].src == src && src != "" {
        SourcesHold(specs, i);
      }
      if j :| 0 <= j < n && specs[..n][j].src == src {
        assert specs[j].src == src;
      }
    }
  }

  lemma {:induction false} SourcesJoin(a: seq<PushSpec>, b: seq<PushSpec>)
    ensures Sources(a + b) == Sources(a) + Sources(b)
  {
    if b == [] {
      assert a + b == a;
    } else {
      SourcesJoin(a, b[..|b| - 1]);
      assert (a + b)[..|a + b| - 1] == a + b[..|b| - 1];
    }
  }

  // Answers that agree with `names` are among what the sources resolve to there.
  predicate Agree(specs: seq<PushSpec>, found: Answers, names: map<string, Oid>)
    requires |found| <= |specs|
  {
    forall i | 0 <= i < |found| && specs[i].src != "" && found[i].Some? :: found[i] == Answer(specs[i], names)
  }

  lemma {:induction false} AgreeingAnswersAreWanted(specs: seq<PushSpec>, found: Answers, names: map<string, Oid>,
                                                    held: set<Oid>)
    requires |found| == |specs| && Agree(specs, found, names) && Wanted(names, Sources(specs)) <= held
    ensures SetsIn(specs, found, held)
  {
    forall i | 0 <= i < |specs| && specs[i].src != "" && found[i].Some?
      ensures found[i].value in held
    {
      SourcesHold(specs, i);
      assert found[i].value in Wanted(names, Sources(specs));
    }
  }

  // The heart of the protocol: a thin bundle made against the refs of a self-contained manifest
  // finds its prerequisites in that manifest's bundles and completes them.
  lemma {:induction false} BundleCompletes(links: Links, git: LocalGit, store: Store, shas: seq<Sha>,
                                           haves: set<Oid>, srcs: seq<string>, sha: Sha)
    requires Complete(links) && Replayable(links, store, shas) && haves <= Contents(store, shas)
    requires sha in store && CreateBundle(links, git, haves, srcs) == Some(store[sha])
    ensures Replayable(links, store, shas + [sha])
    ensures Contents(store, shas + [sha]) == Contents(store, shas) + Reach(links, Wanted(git.names, srcs))
  {
    var all, held, b := shas + [sha], Contents(store, shas), store[sha];
    var excluded, reached := Reach(links, haves), Reach(links, Wanted(git.names, srcs));
    assert all[..|all| - 1] == shas;
    ReplayableIsClosed(links, store, shas);
    ReachIsLeast(links, haves, held);
    assert b.prerequisites <= excluded;
    assert held + (reached - excluded) == held + reached;
    ReachIsClosed(links, Wanted(git.names, srcs));
    ClosedUnion(links, held, reached);
  }

  // What the manifest of a push lists once its bundle is stored: all that was listed before, and
  // all that the pushed names reached when the bundle was made.
  lemma {:induction false} PushedListReplays(links: Links, git: LocalGit, store: Store, prev: Option<Manifest>,
                                             specs: seq<PushSpec>, bundle: Option<Sha>)
    requires Complete(links) && Wanted(git.names, Sources(specs)) <= links.Keys
    requires prev.Some? ==> SelfContained(links, store, prev.value)
    requires bundle.None? ==> Sources(specs) == []
    requires bundle.Some? ==>
               && bundle.value in store
               && CreateBundle(links, git, PrevRefs(prev).Values, Sources(specs)) == Some(store[bundle.value])
    ensures Replayable(links, store, NewBundles(prev, bundle))
    ensures Contents(store, NewBundles(prev, bundle)) == HeldAfter(links, store, prev, specs, git.names)
    ensures PrevRefs(prev).Values <= HeldAfter(links, store, prev, specs, git.names)
    ensures Wanted(git.names, Sources(specs)) <= HeldAfter(links, store, prev, specs, git.names)
  {
    ReachHoldsRoots(links, Wanted(git.names, Sources(specs)));
    if bundle.Some? {
      BundleCompletes(links, git, store, PrevBundles(prev), PrevRefs(prev).Values, Sources(specs), bundle.value);
    } else {
      assert PrevBundles(prev) + [] == PrevBundles(prev);
      assert Wanted(git.names, []) == {};
      assert Closed(links, {});
      ReachIsLeast(links, {}, {});
    }
  }

  // What the bundles before a push hold, and what the pushed names reach.
  ghost function HeldAfter(links: Links, store: Store, prev: Option<Manifest>, specs: seq<PushSpec>,
                           names: map<string, Oid>): set<Oid>
  {
    Contents(store, PrevBundles(prev)) + Reach(links, Wanted(names, Sources(specs)))
  }

  // A push turns a self-contained manifest into a self-contained one exactly when the refs it sets
  // were set to objects that are bundled.
  lemma {:induction false} PushIsSelfContainedIff(links: Links, repo: string, git: LocalGit, store: Store,
                                                  prev: Option<Manifest>, specs: seq<PushSpec>, found: Answers,
                                                  head: Option<string>, bundle: Option<Sha>)
    requires Complete(links) && Wanted(git.names, Sources(specs)) <= links.Keys && |found| == |specs|
    requires prev.Some? ==> SelfContained(links, store, prev.value)
    requires bundle.None? ==> Sources(specs) == []
    requires bundle.Some? ==>
               && bundle.value in store
               && CreateBundle(links, git, PrevRefs(prev).Values, Sources(specs)) == Some(store[bundle.value])
    ensures SelfContained(links, store, NewManifest(repo, prev, specs, found, head, bundle))
       <==> SetsIn(specs, found, HeldAfter(links, store, prev, specs, git.names))
  {
    PushedListReplays(links, git, store, prev, specs, bundle);
    SetsInIff(PrevRefs(prev), specs, found, HeldAfter(links, store, prev, specs, git.names));
  }

  // A push whose names hold still turns a self-contained manifest into a self-contained one.
  lemma {:induction false} PushKeepsSelfContained(links: Links, repo: string, git: LocalGit, store: Store,
                                                  prev: Option<Manifest>, specs: seq<PushSpec>, found: Answers,
                                                  head: Option<string>, bundle: Option<Sha>)
    requires Complete(links) && Wanted(git.names, Sources(specs)) <= links.Keys
    requires |found| == |specs| && Agree(specs, found, git.names)
    requires prev.Some? ==> SelfContained(links, store, prev.value)
    requires bundle.None? ==> Sources(specs) == []
    requires bundle.Some? ==>
               && bundle.value in store
               && CreateBundle(links, git, PrevRefs(prev).Values, Sources(specs)) == Some(store[bundle.value])
    ensures SelfContained(links, store, NewManifest(repo, prev, specs, found, head, bundle))
  {
    PushedListReplays(links, git, store, prev, specs, bundle);
    AgreeingAnswersAreWanted(specs, found, git.names, HeldAfter(links, store, prev, specs, git.names));
    PushIsSelfContainedIff(links, repo, git, store, prev, specs, found, head, bundle);
  }

  lemma {:induction false} PrevGrows(links: Links, store: Store, store': Store, prev: Option<Manifest>)
    requires Extends(store, store') && (prev.Some? ==> SelfContained(links, store, prev.value))
    ensures prev.Some? ==> SelfContained(links, store', prev.value)
    ensures Contents(store', PrevBundles(prev)) == Contents(store, PrevBundles(prev))
  {
    if prev.Some? {
      ReplayableGrows(links, store, store', prev.value.bundles);
    }
  }

  // git makes the bundles, in this repository.
  ghost predicate MakesBundles(bundleCreate: (set<Oid>, seq<string>) -> Option<Bundle>, links: Links, git: LocalGit)
  {
    forall haves, srcs :: bundleCreate(haves, srcs) == CreateBundle(links, git, haves, srcs)
  }

  // A push from a self-contained manifest, as its caller sees it: the bundle and the manifest are
  // stored, and the latter is self-contained exactly when the refs were set to what is bundled.
  lemma {:induction false} PushedIsSelfContained(links: Links, repo: string, git: LocalGit, store: Store,
                                                 prev: Option<Manifest>, specs: seq<PushSpec>, found: Answers,
                                                 head: Option<string>, b: Option<Bundle>, sha: Bundle -> Sha)
    requires Complete(links) && Wanted(git.names, Sources(specs)) <= links.Keys && |found| == |specs|
    requires prev.Some? ==> SelfContained(links, store, prev.value)
    requires if Sources(specs) == [] then b == None
             else b.Some? && b == CreateBundle(links, git, PrevRefs(prev).Values, Sources(specs))
    requires b.Some? && sha(b.value) in store ==> store[sha(b.value)] == b.value
    ensures var m := NewManifest(repo, prev, specs, found, head, ShaOf(b, sha));
            SelfContained(links, WithBundle(store, b, sha), m)
            <==> SetsIn(specs, found, HeldAfter(links, store, prev, specs, git.names))
    ensures Agree(specs, found, git.names) ==>
              SetsIn(specs, found, HeldAfter(links, store, prev, specs, git.names))
  {
    var after := WithBundle(store, b, sha);
    assert Extends(store, after);
    PrevGrows(links, store, after, prev);
    PushIsSelfContainedIff(links, repo, git, after, prev, specs, found, head, ShaOf(b, sha));
    if Agree(specs, found, git.names) {
      ReachHoldsRoots(links, Wanted(git.names, Sources(specs)));
      AgreeingAnswersAreWanted(specs, found, git.names, HeldAfter(links, store, prev, specs, git.names));
    }
  }

  // ---------------------------------------------------------------------------------------------
  // One helper on its own

  // What becomes of the three requests of a push. A request that fails changes nothing.
  datatype Net = Net(loads: bool, storesBundle: bool, storesManifest: bool)

  datatype PushReply = Done(results: seq<PushResult>) | ReadFailed | BundleCreateFailed | UploadFailed | SaveFailed

  datatype FetchError = ManifestUnread | BundleUnread(sha: Sha) | BundleNotFound(sha: Sha) | UnbundleFailed(sha: Sha)

  function ShaOf(b: Option<Bundle>, sha: Bundle -> Sha): Option<Sha>
  {
    if b.Some? then Some(sha(b.value)) else None
  }

  function WithBundle(store: Store, b: Option<Bundle>, sha: Bundle -> Sha): Store
  {
    if b.Some? then store[sha(b.value) := b.value] else store
  }

  // The i-th listed bundle is there, and so is what it expects.
  predicate Fits(store: Store, objects: set<Oid>, shas: seq<Sha>, i: nat)
    requires i < |shas|
  {
    shas[i] in store && store[shas[i]].prerequisites <= objects + Contents(store, shas[..i])
  }

  // It can be read besides.
  predicate GoesIn(readable: Sha -> bool, store: Store, objects: set<Oid>, shas: seq<Sha>, i: nat)
    requires i < |shas|
  {
    readable(shas[i]) && Fits(store, objects, shas, i)
  }

  function FetchFailure(readable: Sha -> bool, store: Store, sha: Sha): FetchError
  {
    if !readable(sha) then BundleUnread(sha) else if sha in store then UnbundleFailed(sha) else BundleNotFound(sha)
  }

  lemma {:induction false} ReplayableFits(links: Links, store: Store, objects: set<Oid>, shas: seq<Sha>, i: nat)
    requires Replayable(links, store, shas) && i < |shas|
    ensures Fits(store, objects, shas, i)
  {
    ReplayablePrefix(links, store, shas, i + 1);
    assert shas[..i + 1][..i] == shas[..i];
  }

  // The manifest a fetch takes, if self-contained, never makes it fail, and brings every ref with
  // all it refers to, whatever the local repository holds.
  lemma {:induction false} SelfContainedFits(links: Links, store: Store, m: Manifest, objects: set<Oid>)
    requires SelfContained(links, store, m)
    ensures forall i: nat | i < |m.bundles| :: Fits(store, objects, m.bundles, i)
    ensures Reach(links, m.refs.Values) <= objects + Contents(store, m.bundles)
    ensures Closed(links, objects) ==> Closed(links, objects + Contents(store, m.bundles))
  {
    forall i: nat | i < |m.bundles|
      ensures Fits(store, objects, m.bundles, i)
    {
      ReplayableFits(links, store, objects, m.bundles, i);
    }
    ReplayableIsClosed(links, store, m.bundles);
    ReachIsLeast(links, m.refs.Values, Contents(store, m.bundles));
    if Closed(links, objects) {
      ClosedUnion(links, objects, Contents(store, m.bundles));
    }
  }

  class IpfsRemote {
    const repo: string
    var manifest: Option<Manifest>
    var blobs: Store

    constructor (repo: string)
      ensures this.repo == repo && manifest == None && blobs == map[]
    {
      this.repo, manifest, blobs := repo, None, map[];
    }

    // The loop over the specs.
    method ApplySpecs(prev: map<string, Oid>, specs: seq<PushSpec>, found: Answers)
      returns (newRefs: map<string, Oid>, results: seq<PushResult>)
      requires |found| == |specs|
      ensures newRefs == UpdatedRefs(prev, specs, found)
      ensures ResultsTell(specs, found, results)
    {
      newRefs, results := prev, [];
      for i := 0 to |specs|
        invariant newRefs == UpdatedRefs(prev, specs[..i], found[..i])
        invariant ResultsTell(specs[..i], found[..i], results)
      {
        var spec := specs[i];
        assert specs[..i + 1][..i] == specs[..i] && found[..i + 1][..i] == found[..i];
        if spec.src == "" {
          newRefs := newRefs - {spec.dst};
          results := results + [PushResult(spec.dst, Accepted)];
          continue;
        }
        if found[i].Some? {
          newRefs := newRefs[spec.dst := found[i].value];
          results := results + [PushResult(spec.dst, Accepted)];
        } else {
          results := results + [PushResult(spec.dst, Refused("rev-parse failed: " + RevParseError(spec.src)))];
        }
      }
      assert specs[..|specs|] == specs && found[..|found|] == found;
    }

    method PushRefs(specs: seq<PushSpec>) returns (srcs: seq<string>)
      ensures srcs == Sources(specs)
    {
      srcs := [];
      for i := 0 to |specs|
        invariant srcs == Sources(specs[..i])
      {
        assert specs[..i + 1][..i] == specs[..i];
        if specs[i].src != "" {
          srcs := srcs + [specs[i].src];
        }
      }
      assert specs[..|specs|] == specs;
    }

    // The bundle of a push, as `bundleCreate` (git bundle create in the local repository) makes it.
    function Wants(specs: seq<PushSpec>, bundleCreate: (set<Oid>, seq<string>) -> Option<Bundle>): Option<Bundle>
      reads this
    {
      if Sources(specs) == [] then None else bundleCreate(PrevRefs(manifest).Values, Sources(specs))
    }

    // `found` are the answers of rev-parse, `head` that of symbolic-ref; `sha` stands for SHA-256.
    method Push(specs: seq<PushSpec>, found: Answers, head: Option<string>,
                bundleCreate: (set<Oid>, seq<string>) -> Option<Bundle>, sha: Bundle -> Sha, net: Net,
                ghost links: Links, ghost git: LocalGit)
      returns (r: PushReply)
      requires |found| == |specs|
      modifies this
      ensures r.ReadFailed? <==> !net.loads
      ensures r.BundleCreateFailed? <==> net.loads && Sources(specs) != [] && old(Wants(specs, bundleCreate)).None?
      ensures r.UploadFailed? <==> net.loads && old(Wants(specs, bundleCreate)).Some? && !net.storesBundle
      ensures r.ReadFailed? || r.BundleCreateFailed? || r.UploadFailed? ==> blobs == old(blobs)
      ensures r.SaveFailed? || r.Done? ==>
                blobs == WithBundle(old(blobs), old(Wants(specs, bundleCreate)), sha)
      ensures r.SaveFailed? ==> !net.storesManifest
      ensures !r.Done? ==> manifest == old(manifest)
      ensures r.Done? ==> net.storesManifest && |r.results| == |specs|
      ensures r.Done? ==>
                forall i | 0 <= i < |specs| ::
                  && r.results[i].dst == specs[i].dst
                  && (r.results[i].result == Accepted <==> specs[i].src == "" || found[i].Some?)
                  && (r.results[i].result.Refused? ==>
                        r.results[i].result.message
                        == "rev-parse failed: " + ("git rev-parse " + specs[i].src + " failed"))
      ensures r.Done? ==>
                var refs := if old(manifest).Some? then old(manifest).value.refs else map[];
                var bundles := if old(manifest).Some? then old(manifest).value.bundles else [];
                var b := if Sources(specs) == [] then None else bundleCreate(refs.Values, Sources(specs));
                manifest == Some(Manifest(repo,
                                          UpdatedRefs(refs, specs, found),
                                          head,
                                          bundles + (if b.Some? then [sha(b.value)] else []),
                                          if bundles == [] then None else Some(bundles[|bundles| - 1])))
      ensures (r.SaveFailed? || r.Done?) && MakesBundles(bundleCreate, links, git) ==>
                var refs := if old(manifest).Some? then old(manifest).value.refs else map[];
                var b := CreateBundle(links, git, refs.Values, Sources(specs));
                if Sources(specs) == [] then blobs == old(blobs)
                else b.Some? && blobs == old(blobs)[sha(b.value) := b.value]
      ensures r.Done? && old(Sound(specs, bundleCreate, sha, links, git)) ==>
                && (SelfContained(links, blobs, manifest.value)
                    <==> SetsIn(specs, found, HeldAfter(links, old(blobs), old(manifest), specs, git.names)))
                && (Agree(specs, found, git.names) ==> SelfContained(links, blobs, manifest.value))
    {
      SoundPush(specs, found, head, bundleCreate, sha, links, git);
      if !net.loads {
        return ReadFailed;
      }
      var failure, bundleSha := StoreBundle(specs, bundleCreate, sha, net.storesBundle);
      if failure.Some? {
        return failure.value;
      }
      r := SaveManifest(specs, found, head, bundleSha, net.storesManifest);
    }

    lemma {:induction false} SoundPush(specs: seq<PushSpec>, found: Answers, head: Option<string>,
                    bundleCreate: (set<Oid>, seq<string>) -> Option<Bundle>, sha: Bundle -> Sha, links: Links,
                    git: LocalGit)
      requires |found| == |specs|
      ensures var b := Wants(specs, bundleCreate);
              var m := NewManifest(repo, manifest, specs, found, head, ShaOf(b, sha));
              var held := HeldAfter(links, blobs, manifest, specs, git.names);
              Sound(specs, bundleCreate, sha, links, git) && b.None? == (Sources(specs) == []) ==>
                && (SelfContained(links, WithBundle(blobs, b, sha), m) <==> SetsIn(specs, found, held))
                && (Agree(specs, found, git.names) ==> SetsIn(specs, found, held))
    {
      var b := Wants(specs, bundleCreate);
      if Sound(specs, bundleCreate, sha, links, git) && b.None? == (Sources(specs) == []) {
        PushedIsSelfContained(links, repo, git, blobs, manifest, specs, found, head, b, sha);
      }
    }

    // From the refs pushed up to the upload of their bundle.
    method StoreBundle(specs: seq<PushSpec>, bundleCreate: (set<Oid>, seq<string>) -> Option<Bundle>,
                       sha: Bundle -> Sha, stores: bool)
      returns (failure: Option<PushReply>, bundleSha: Option<Sha>)
      modifies this`blobs
      ensures var made := old(Wants(specs, bundleCreate));
              if Sources(specs) != [] && made.None? then failure == Some(BundleCreateFailed) && blobs == old(blobs)
              else if made.Some? && !stores then failure == Some(UploadFailed) && blobs == old(blobs)
              else && failure == None && bundleSha == ShaOf(made, sha)
                   && blobs == WithBundle(old(blobs), made, sha)
    {
      failure, bundleSha := None, None;
      var pushRefs := PushRefs(specs);
      if pushRefs != [] {
        var haves := if manifest.Some? then manifest.value.refs.Values else {};
        assert haves == PrevRefs(manifest).Values;
        var bundle := bundleCreate(haves, pushRefs);
        if bundle.None? {
          return Some(BundleCreateFailed), None;
        }
        if !stores {
          return Some(UploadFailed), None;
        }
        blobs := blobs[sha(bundle.value) := bundle.value];
        bundleSha := Some(sha(bundle.value));
      }
    }

    // git makes the bundles, the manifest is self-contained, and the new bundle's hash is not that
    // of another one.
    ghost predicate Sound(specs: seq<PushSpec>, bundleCreate: (set<Oid>, seq<string>) -> Option<Bundle>,
                          sha: Bundle -> Sha, links: Links, git: LocalGit)
      reads this
    {
      && Complete(links) && Wanted(git.names, Sources(specs)) <= links.Keys
      && MakesBundles(bundleCreate, links, git)
      && (manifest.Some? ==> SelfContained(links, blobs, manifest.value))
      && forall b: Bundle :: sha(b) in blobs ==> blobs[sha(b)] == b
    }

    // From the new refs on.
    method SaveManifest(specs: seq<PushSpec>, found: Answers, head: Option<string>, bundleSha: Option<Sha>,
                        stores: bool)
      returns (r: PushReply)
      requires |found| == |specs|
      modifies this`manifest
      ensures !stores ==> r == SaveFailed && manifest == old(manifest)
      ensures stores ==> r.Done? && ResultsTell(specs, found, r.results)
      ensures stores ==> manifest == Some(NewManifest(repo, old(manifest), specs, found, head, bundleSha))
    {
      var prevRefs := if manifest.Some? then manifest.value.refs else map[];
      var newRefs, results := ApplySpecs(prevRefs, specs, found);
      var bundles := if manifest.Some? then manifest.value.bundles else [];
      var prevSha := if bundles == [] then None else Some(bundles[|bundles| - 1]);
      if bundleSha.Some? {
        bundles := bundles + [bundleSha.value];
      }
      assert bundles == NewBundles(manifest, bundleSha);
      if !stores {
        return SaveFailed;
      }
      manifest := Some(Manifest(repo, newRefs, head, bundles, prevSha));
      r := Done(results);
    }

    // Downloads and unbundles the listed bundles in order. It fails at the first that cannot be read,
    // is not stored or does not find its prerequisites, and keeps what came before. `loads` and
    // `readable` say which requests succeed.
    method Fetch(objects: set<Oid>, loads: bool, readable: Sha -> bool, ghost links: Links)
      returns (r: Option<FetchError>, objects': set<Oid>)
      ensures !loads ==> r == Some(ManifestUnread) && objects' == objects
      ensures loads && manifest.None? ==> r == None && objects' == objects
      ensures loads && manifest.Some? && r.None? ==>
                var shas := manifest.value.bundles;
                && objects' == objects + Contents(blobs, shas)
                && forall i: nat | i < |shas| ::
                     && readable(shas[i]) && shas[i] in blobs
                     && blobs[shas[i]].prerequisites <= objects + Contents(blobs, shas[..i])
      ensures loads && manifest.Some? && r.Some? ==>
                var shas := manifest.value.bundles;
                exists i: nat :: FailsAt(objects, shas, readable, i, r.value, objects')
      ensures loads && (forall sha :: readable(sha))
              && manifest.Some? && SelfContained(links, blobs, manifest.value) ==>
                && r == None
                && Reach(links, manifest.value.refs.Values) <= objects'
                && (Closed(links, objects) ==> Closed(links, objects'))
    {
      objects' := objects;
      if !loads {
        return Some(ManifestUnread), objects';
      }
      if manifest.None? {
        return None, objects';
      }
      if SelfContainedHere(links) {
        SelfContainedFits(links, blobs, manifest.value, objects);
      }
      var shas := manifest.value.bundles;
      r, objects' := Replay(objects, shas, readable);
      if r.Some? {
        ghost var i: nat :| i < |shas| && !GoesIn(readable, blobs, objects, shas, i)
                            && (forall j: nat | j < i :: GoesIn(readable, blobs, objects, shas, j))
                            && r.value == FetchFailure(readable, blobs, shas[i])
                            && objects' == objects + Contents(blobs, shas[..i]);
        assert FailsAt(objects, shas, readable, i, r.value, objects');
      } else {
        forall i: nat | i < |shas|
          ensures readable(shas[i]) && shas[i] in blobs
          ensures blobs[shas[i]].prerequisites <= objects + Contents(blobs, shas[..i])
        {
          assert GoesIn(readable, blobs, objects, shas, i);
        }
      }
    }

    // The fetch stops at the i-th listed bundle, after all before it went in, and says why.
    ghost predicate FailsAt(objects: set<Oid>, shas: seq<Sha>, readable: Sha -> bool, i: nat, error: FetchError,
                            objects': set<Oid>)
      reads this
    {
      && i < |shas|
      && (forall j: nat | j < i ::
            && readable(shas[j]) && shas[j] in blobs
            && blobs[shas[j]].prerequisites <= objects + Contents(blobs, shas[..j]))
      && objects' == objects + Contents(blobs, shas[..i])
      && (if !readable(shas[i]) then error == BundleUnread(shas[i])
          else if shas[i] !in blobs then error == BundleNotFound(shas[i])
          else error == UnbundleFailed(shas[i]) && !(blobs[shas[i]].prerequisites <= objects'))
    }

    method Replay(objects: set<Oid>, shas: seq<Sha>, readable: Sha -> bool)
      returns (r: Option<FetchError>, objects': set<Oid>)
      ensures r.None? ==>
                && objects' == objects + Contents(blobs, shas)
                && forall i: nat | i < |shas| :: GoesIn(readable, blobs, objects, shas, i)
      ensures r.Some? ==>
                exists i: nat | i < |shas| ::
                  && !GoesIn(readable, blobs, objects, shas, i)
                  && (forall j: nat | j < i :: GoesIn(readable, blobs, objects, shas, j))
                  && r.value == FetchFailure(readable, blobs, shas[i])
                  && objects' == objects + Contents(blobs, shas[..i])
    {
      objects' := objects;
      for i := 0 to |shas|
        invariant objects' == objects + Contents(blobs, shas[..i])
        invariant forall j: nat | j < i :: GoesIn(readable, blobs, objects, shas, j)
      {
        assert shas[..i + 1][..i] == shas[..i];
        if !readable(shas[i]) {
          assert !GoesIn(readable, blobs, objects, shas, i);
          return Some(BundleUnread(shas[i])), objects';
        }
        if shas[i] !in blobs {
          assert !GoesIn(readable, blobs, objects, shas, i);
          return Some(BundleNotFound(shas[i])), objects';
        }
        var unbundled := Unbundle(objects', blobs[shas[i]]);
        if unbundled.None? {
          assert !GoesIn(readable, blobs, objects, shas, i);
          return Some(UnbundleFailed(shas[i])), objects';
        }
        assert GoesIn(readable, blobs, objects, shas, i);
        objects' := unbundled.value;
      }
      assert shas[..|shas|] == shas;
      r := None;
    }

    ghost predicate SelfContainedHere(links: Links)
      reads this
    {
      manifest.Some? && SelfContained(links, blobs, manifest.value)
    }
  }
}
