// Several pushers and readers working on one remote at the same time.
//
// Every step of a push or a fetch that touches the remote is atomic; anything may happen between
// two steps of one helper, a helper may die between them, and two pushes may start from the same
// manifest, in which case the manifest written first is lost.
module PushProtocol {
  import opened CommitGraph
  import opened Options
  import opened HelperTypes
  import opened BundleStore

  // How far a push has come. `names` is what the names resolved to when the bundle was made, and
  // `found` what rev-parse has answered since.
  datatype PushPhase =
    | NotPushing
    | ReadManifest(prev: Option<Manifest>, specs: seq<PushSpec>)
    | MadeBundle(prev: Option<Manifest>, specs: seq<PushSpec>, names: map<string, Oid>, bundle: Bundle)
    | Stored(prev: Option<Manifest>, specs: seq<PushSpec>, names: map<string, Oid>, sha: Option<Sha>, found: Answers)

  // How far a fetch has come: the manifest it took, and how many of its bundles are in.
  datatype FetchPhase =
    | NotFetching
    | Fetching(manifest: Manifest, next: nat)
    | Fetched(manifest: Manifest)
    | FetchFailed(error: FetchError)

  datatype Pusher = Pusher(git: LocalGit, phase: PushPhase)

  datatype Reader = Reader(objects: set<Oid>, phase: FetchPhase)

  // `manifests` are all manifests ever written for the repository, the latest last.
  datatype Remote = Remote(store: Store, manifests: seq<Manifest>, pushers: seq<Pusher>, readers: seq<Reader>)

  // With Kubo there is one file, which holds the manifest written last. With Blossom every manifest
  // stays, and a reader takes the one the server calls newest: any of them, as clocks may be off.
  datatype Backend = Ipfs | Blossom

  datatype Event =
    | LocalChange(p: nat, git: LocalGit)
    | StartPush(p: nat, specs: seq<PushSpec>, taken: nat)
    | MakeBundle(p: nat)
    | Upload(p: nat, sha: Sha)
    | RevParse(p: nat)
    | WriteManifest(p: nat, repo: string, head: Option<string>)
    | PusherDies(p: nat)
    | StartFetch(r: nat, taken: nat)
    | FetchBundle(r: nat)
    | ReaderDies(r: nat)

  // A local repository lacks nothing, and its names resolve to objects it has.
  ghost predicate SoundGit(links: Links, git: LocalGit)
  {
    Closed(links, git.objects) && git.names.Values <= git.objects
  }

  predicate CanTake(backend: Backend, manifests: seq<Manifest>, taken: nat)
  {
    if manifests == [] then taken == 0
    else taken < |manifests| && (backend == Ipfs ==> taken == |manifests| - 1)
  }

  function Taken(manifests: seq<Manifest>, taken: nat): Option<Manifest>
    requires manifests == [] || taken < |manifests|
  {
    if manifests == [] then None else Some(manifests[taken])
  }

  // Some spec has not been looked up yet.
  predicate Asks(phase: PushPhase)
  {
    phase.Stored? && |phase.found| < |phase.specs|
  }

  // All have.
  predicate Answered(phase: PushPhase)
  {
    phase.Stored? && |phase.found| == |phase.specs|
  }

  // The push with the next spec looked up, in the repository as it is now.
  function AfterAnswer(q: Pusher): Pusher
    requires Asks(q.phase)
  {
    q.(phase := q.phase.(found := q.phase.found + [Answer(q.phase.specs[|q.phase.found|], q.git.names)]))
  }

  function Written(phase: PushPhase, repo: string, head: Option<string>): Manifest
    requires Answered(phase)
  {
    NewManifest(repo, phase.prev, phase.specs, phase.found, head, phase.sha)
  }

  // What may happen next. An upload is named by a hash that no other content has.
  ghost predicate Enabled(links: Links, backend: Backend, s: Remote, e: Event)
  {
    match e
    case LocalChange(p, git) => p < |s.pushers| && SoundGit(links, git)
    case StartPush(p, _, taken) =>
      p < |s.pushers| && s.pushers[p].phase.NotPushing? && CanTake(backend, s.manifests, taken)
    case MakeBundle(p) => p < |s.pushers| && s.pushers[p].phase.ReadManifest?
    case Upload(p, sha) =>
      && p < |s.pushers| && s.pushers[p].phase.MadeBundle?
      && (sha in s.store ==> s.store[sha] == s.pushers[p].phase.bundle)
    case RevParse(p) => p < |s.pushers| && Asks(s.pushers[p].phase)
    case WriteManifest(p, _, _) => p < |s.pushers| && Answered(s.pushers[p].phase)
    case PusherDies(p) => p < |s.pushers|
    case StartFetch(r, taken) =>
      r < |s.readers| && !s.readers[r].phase.Fetching? && s.manifests != [] && CanTake(backend, s.manifests, taken)
    case FetchBundle(r) => r < |s.readers| && s.readers[r].phase.Fetching?
    case ReaderDies(r) => r < |s.readers|
  }

  // The bundle step: nothing to bundle when only refs are deleted; the push ends when git refuses.
  ghost function AfterBundle(links: Links, git: LocalGit, phase: PushPhase): PushPhase
    requires phase.ReadManifest?
  {
    var srcs := Sources(phase.specs);
    if srcs == [] then Stored(phase.prev, phase.specs, git.names, None, []) else
      var b := CreateBundle(links, git, PrevRefs(phase.prev).Values, srcs);
      if b.None? then NotPushing else MadeBundle(phase.prev, phase.specs, git.names, b.value)
  }

  // One bundle of a fetch: look it up, unbundle it.
  function AfterFetch(store: Store, reader: Reader): Reader
    requires reader.phase.Fetching?
  {
    var Fetching(m, next) := reader.phase;
    if next >= |m.bundles| then reader.(phase := Fetched(m))
    else if m.bundles[next] !in store then reader.(phase := FetchFailed(BundleNotFound(m.bundles[next])))
    else
      var objects := Unbundle(reader.objects, store[m.bundles[next]]);
      if objects.None? then reader.(phase := FetchFailed(UnbundleFailed(m.bundles[next])))
      else Reader(objects.value, Fetching(m, next + 1))
  }

  ghost function Next(links: Links, backend: Backend, s: Remote, e: Event): Remote
    requires Enabled(links, backend, s, e)
  {
    match e
    case LocalChange(p, git) => s.(pushers := s.pushers[p := s.pushers[p].(git := git)])
    case StartPush(p, specs, taken) =>
      s.(pushers := s.pushers[p := s.pushers[p].(phase := ReadManifest(Taken(s.manifests, taken), specs))])
    case MakeBundle(p) =>
      var q := s.pushers[p];
      s.(pushers := s.pushers[p := q.(phase := AfterBundle(links, q.git, q.phase))])
    case Upload(p, sha) =>
      var q := s.pushers[p];
      s.(store := s.store[sha := q.phase.bundle],
         pushers := s.pushers[p := q.(phase := Stored(q.phase.prev, q.phase.specs, q.phase.names, Some(sha), []))])
    case RevParse(p) => s.(pushers := s.pushers[p := AfterAnswer(s.pushers[p])])
    case WriteManifest(p, repo, head) =>
      var q := s.pushers[p];
      s.(manifests := s.manifests + [Written(q.phase, repo, head)],
         pushers := s.pushers[p := q.(phase := NotPushing)])
    case PusherDies(p) => s.(pushers := s.pushers[p := s.pushers[p].(phase := NotPushing)])
    case StartFetch(r, taken) =>
      s.(readers := s.readers[r := s.readers[r].(phase := Fetching(Taken(s.manifests, taken).value, 0))])
    case FetchBundle(r) => s.(readers := s.readers[r := AfterFetch(s.store, s.readers[r])])
    case ReaderDies(r) => s.(readers := s.readers[r := s.readers[r].(phase := NotFetching)])
  }

  // Each ref the push sets was set to an object that the bundles before it hold, or that was bundled.
  ghost predicate SetsBundled(links: Links, store: Store, phase: PushPhase)
    requires Answered(phase)
  {
    SetsIn(phase.specs, phase.found, HeldAfter(links, store, phase.prev, phase.specs, phase.names))
  }

  ghost predicate Steady(links: Links, s: Remote, e: Event)
  {
    e.WriteManifest? && e.p < |s.pushers| && Answered(s.pushers[e.p].phase) ==>
      SetsBundled(links, s.store, s.pushers[e.p].phase)
  }

  // ---------------------------------------------------------------------------------------------
  // What every step keeps

  ghost predicate PrevFine(links: Links, store: Store, prev: Option<Manifest>)
  {
    prev.Some? ==> SelfContained(links, store, prev.value)
  }

  // The bundle was made from the names as they were then, against the manifest that was read.
  ghost predicate MadeFrom(links: Links, prev: Option<Manifest>, specs: seq<PushSpec>, names: map<string, Oid>,
                           b: Bundle)
  {
    && Wanted(names, Sources(specs)) <= links.Keys
    && exists git: LocalGit ::
         git.names == names && CreateBundle(links, git, PrevRefs(prev).Values, Sources(specs)) == Some(b)
  }

  ghost predicate PusherFine(links: Links, store: Store, q: Pusher)
  {
    && SoundGit(links, q.git)
    && match q.phase
       case NotPushing => true
       case ReadManifest(prev, _) => PrevFine(links, store, prev)
       case MadeBundle(prev, specs, names, b) =>
         PrevFine(links, store, prev) && MadeFrom(links, prev, specs, names, b)
       case Stored(prev, specs, names, sha, found) =>
         && PrevFine(links, store, prev)
         && |found| <= |specs|
         && Wanted(names, Sources(specs)) <= links.Keys
         && (sha.None? ==> Sources(specs) == [])
         && (sha.Some? ==> sha.value in store && MadeFrom(links, prev, specs, names, store[sha.value]))
  }

  // A reader has what the bundles it went through hold, lacks nothing, and has not failed.
  ghost predicate ReaderFine(links: Links, store: Store, r: Reader)
  {
    && Closed(links, r.objects)
    && match r.phase
       case NotFetching => true
       case Fetching(m, next) =>
         SelfContained(links, store, m) && next <= |m.bundles| && Contents(store, m.bundles[..next]) <= r.objects
       case Fetched(m) => SelfContained(links, store, m) && Contents(store, m.bundles) <= r.objects
       case FetchFailed(_) => false
  }

  ghost predicate Inv(links: Links, s: Remote)
  {
    && Complete(links)
    && (forall i | 0 <= i < |s.manifests| :: SelfContained(links, s.store, s.manifests[i]))
    && (forall p | 0 <= p < |s.pushers| :: PusherFine(links, s.store, s.pushers[p]))
    && (forall r | 0 <= r < |s.readers| :: ReaderFine(links, s.store, s.readers[r]))
  }

  lemma SelfContainedGrows(links: Links, store: Store, store': Store, m: Manifest)
    requires SelfContained(links, store, m) && Extends(store, store')
    ensures SelfContained(links, store', m)
  {
    ReplayableGrows(links, store, store', m.bundles);
  }

  // Storing more bundles hurts nobody.
  lemma InvGrows(links: Links, s: Remote, store': Store)
    requires Inv(links, s) && Extends(s.store, store')
    ensures Inv(links, s.(store := store'))
  {
    forall i | 0 <= i < |s.manifests|
      ensures SelfContained(links, store', s.manifests[i])
    {
      SelfContainedGrows(links, s.store, store', s.manifests[i]);
    }
    forall p | 0 <= p < |s.pushers|
      ensures PusherFine(links, store', s.pushers[p])
    {
      PusherGrows(links, s.store, store', s.pushers[p]);
    }
    forall r | 0 <= r < |s.readers|
      ensures ReaderFine(links, store', s.readers[r])
    {
      ReaderGrows(links, s.store, store', s.readers[r]);
    }
  }

  lemma PusherGrows(links: Links, store: Store, store': Store, q: Pusher)
    requires PusherFine(links, store, q) && Extends(store, store')
    ensures PusherFine(links, store', q)
  {
    if !q.phase.NotPushing? && q.phase.prev.Some? {
      SelfContainedGrows(links, store, store', q.phase.prev.value);
    }
  }

  lemma ReaderGrows(links: Links, store: Store, store': Store, r: Reader)
    requires ReaderFine(links, store, r) && Extends(store, store')
    ensures ReaderFine(links, store', r)
  {
    match r.phase
    case Fetching(m, next) =>
      SelfContainedGrows(links, store, store', m);
      ReplayablePrefix(links, store, m.bundles, next);
      ReplayableGrows(links, store, store', m.bundles[..next]);
    case Fetched(m) =>
      SelfContainedGrows(links, store, store', m);
      ReplayableGrows(links, store, store', m.bundles);
    case _ =>
  }

  // A fetch step that starts fine finds its bundle and its prerequisites.
  lemma FetchStaysFine(links: Links, store: Store, r: Reader)
    requires ReaderFine(links, store, r) && r.phase.Fetching?
    ensures ReaderFine(links, store, AfterFetch(store, r))
  {
    var Fetching(m, next) := r.phase;
    if next < |m.bundles| {
      var shas := m.bundles[..next + 1];
      ReplayablePrefix(links, store, m.bundles, next + 1);
      assert shas[..next] == m.bundles[..next];
      ReplayableIsClosed(links, store, shas);
      ClosedUnion(links, r.objects, Contents(store, shas));
      assert r.objects + store[m.bundles[next]].objects == r.objects + Contents(store, shas);
    } else {
      assert m.bundles[..next] == m.bundles;
    }
  }

  // The manifest written is self-contained exactly when what its refs were set to is bundled.
  lemma WriteIsSelfContainedIff(links: Links, store: Store, q: Pusher, repo: string, head: Option<string>)
    requires Complete(links) && PusherFine(links, store, q) && Answered(q.phase)
    ensures SelfContained(links, store, Written(q.phase, repo, head)) <==> SetsBundled(links, store, q.phase)
  {
    var made := BundledFrom(links, store, q);
    PushIsSelfContainedIff(links, repo, made, store, q.phase.prev, q.phase.specs, q.phase.found, head, q.phase.sha);
  }

  // A repository the stored bundle, if any, was made in.
  lemma BundledFrom(links: Links, store: Store, q: Pusher) returns (made: LocalGit)
    requires PusherFine(links, store, q) && q.phase.Stored?
    ensures made.names == q.phase.names
    ensures q.phase.sha.Some? ==>
              && q.phase.sha.value in store
              && CreateBundle(links, made, PrevRefs(q.phase.prev).Values, Sources(q.phase.specs))
                 == Some(store[q.phase.sha.value])
  {
    made := LocalGit({}, q.phase.names, None);
    if q.phase.sha.Some? {
      made :| made.names == q.phase.names
              && CreateBundle(links, made, PrevRefs(q.phase.prev).Values, Sources(q.phase.specs))
                 == Some(store[q.phase.sha.value]);
    }
  }

  // Names that hold still are enough.
  lemma SteadyNamesAreBundled(links: Links, store: Store, q: Pusher)
    requires Complete(links) && PusherFine(links, store, q) && Answered(q.phase)
    requires Agree(q.phase.specs, q.phase.found, q.phase.names)
    ensures SetsBundled(links, store, q.phase)
  {
    var Stored(prev, specs, names, sha, found) := q.phase;
    var made := BundledFrom(links, store, q);
    PushedListReplays(links, made, store, prev, specs, sha);
    AgreeingAnswersAreWanted(specs, found, names, HeldAfter(links, store, prev, specs, names));
  }

  lemma PusherStep(links: Links, s: Remote, p: nat, q: Pusher)
    requires Inv(links, s) && p < |s.pushers| && PusherFine(links, s.store, q)
    ensures Inv(links, s.(pushers := s.pushers[p := q]))
  {
  }

  lemma ReaderStep(links: Links, s: Remote, r: nat, x: Reader)
    requires Inv(links, s) && r < |s.readers| && ReaderFine(links, s.store, x)
    ensures Inv(links, s.(readers := s.readers[r := x]))
  {
  }

  lemma ManifestStep(links: Links, s: Remote, m: Manifest)
    requires Inv(links, s) && SelfContained(links, s.store, m)
    ensures Inv(links, s.(manifests := s.manifests + [m]))
  {
  }

  lemma BundleStep(links: Links, s: Remote, p: nat)
    requires Inv(links, s) && p < |s.pushers| && s.pushers[p].phase.ReadManifest?
    ensures PusherFine(links, s.store,
                       s.pushers[p].(phase := AfterBundle(links, s.pushers[p].git, s.pushers[p].phase)))
  {
  }

  // Every step keeps the invariant, as long as what a push sets is what it bundled.
  lemma StepKeepsInv(links: Links, backend: Backend, s: Remote, e: Event)
    requires Inv(links, s) && Enabled(links, backend, s, e) && Steady(links, s, e)
    ensures Inv(links, Next(links, backend, s, e))
  {
    match e
    case LocalChange(p, git) =>
      assert PusherFine(links, s.store, s.pushers[p]);
      PusherStep(links, s, p, s.pushers[p].(git := git));
    case StartPush(p, specs, taken) =>
      assert PusherFine(links, s.store, s.pushers[p]);
      PusherStep(links, s, p, s.pushers[p].(phase := ReadManifest(Taken(s.manifests, taken), specs)));
    case MakeBundle(p) =>
      BundleStep(links, s, p);
      PusherStep(links, s, p, s.pushers[p].(phase := AfterBundle(links, s.pushers[p].git, s.pushers[p].phase)));
    case Upload(p, sha) =>
      assert PusherFine(links, s.store, s.pushers[p]);
      var q := s.pushers[p];
      var store' := s.store[sha := q.phase.bundle];
      InvGrows(links, s, store');
      PusherGrows(links, s.store, store', q);
      PusherStep(links, s.(store := store'), p,
                 q.(phase := Stored(q.phase.prev, q.phase.specs, q.phase.names, Some(sha), [])));
    case RevParse(p) =>
      assert PusherFine(links, s.store, s.pushers[p]);
      PusherStep(links, s, p, AfterAnswer(s.pushers[p]));
    case WriteManifest(p, repo, head) =>
      assert PusherFine(links, s.store, s.pushers[p]);
      var q := s.pushers[p];
      WriteIsSelfContainedIff(links, s.store, q, repo, head);
      PusherStep(links, s, p, q.(phase := NotPushing));
      ManifestStep(links, s.(pushers := s.pushers[p := q.(phase := NotPushing)]), Written(q.phase, repo, head));
    case PusherDies(p) =>
      assert PusherFine(links, s.store, s.pushers[p]);
      PusherStep(links, s, p, s.pushers[p].(phase := NotPushing));
    case StartFetch(r, taken) =>
      assert ReaderFine(links, s.store, s.readers[r]);
      var m := s.manifests[taken];
      assert m.bundles[..0] == [];
      ReaderStep(links, s, r, s.readers[r].(phase := Fetching(m, 0)));
    case FetchBundle(r) =>
      assert ReaderFine(links, s.store, s.readers[r]);
      FetchStaysFine(links, s.store, s.readers[r]);
      ReaderStep(links, s, r, AfterFetch(s.store, s.readers[r]));
    case ReaderDies(r) =>
      assert ReaderFine(links, s.store, s.readers[r]);
      ReaderStep(links, s, r, s.readers[r].(phase := NotFetching));
  }

  // ---------------------------------------------------------------------------------------------
  // Whole runs

  // A remote nobody has pushed to, with any sound repositories around it.
  ghost predicate Initial(links: Links, s: Remote)
  {
    && Complete(links) && s.store == map[] && s.manifests == []
    && (forall p | 0 <= p < |s.pushers| :: SoundGit(links, s.pushers[p].git) && s.pushers[p].phase.NotPushing?)
    && (forall r | 0 <= r < |s.readers| :: Closed(links, s.readers[r].objects) && s.readers[r].phase.NotFetching?)
  }

  ghost predicate Step(links: Links, backend: Backend, s: Remote, e: Event, s': Remote)
  {
    Enabled(links, backend, s, e) && s' == Next(links, backend, s, e)
  }

  // The states of a run, one more than its events.
  ghost predicate IsRun(links: Links, backend: Backend, states: seq<Remote>, events: seq<Event>)
  {
    && |states| == |events| + 1
    && Initial(links, states[0])
    && (forall i | 0 <= i < |events| ::
          Step(links, backend, states[i], events[i], states[i + 1]))
  }

  // Every push of the run set its refs to what it bundled.
  ghost predicate SteadyRun(links: Links, states: seq<Remote>, events: seq<Event>)
    requires |states| == |events| + 1
  {
    forall i | 0 <= i < |events| :: Steady(links, states[i], events[i])
  }

  lemma RunsKeepInv(links: Links, backend: Backend, states: seq<Remote>, events: seq<Event>, n: nat)
    requires IsRun(links, backend, states, events) && SteadyRun(links, states, events) && n < |states|
    ensures Inv(links, states[n])
  {
    if n > 0 {
      RunsKeepInv(links, backend, states, events, n - 1);
      assert Step(links, backend, states[n - 1], events[n - 1], states[n]);
      StepKeepsInv(links, backend, states[n - 1], events[n - 1]);
    }
  }

  // The first step that writes refs to objects it did not bundle breaks the invariant for good.
  lemma UnsteadyStepBreaks(links: Links, backend: Backend, s: Remote, e: Event)
    requires Inv(links, s) && Enabled(links, backend, s, e) && !Steady(links, s, e)
    ensures !Inv(links, Next(links, backend, s, e))
  {
    var q := s.pushers[e.p];
    assert PusherFine(links, s.store, q);
    WriteIsSelfContainedIff(links, s.store, q, e.repo, e.head);
    var s' := Next(links, backend, s, e);
    assert s'.manifests[|s.manifests|] == Written(q.phase, e.repo, e.head);
  }

  // A run keeps the invariant throughout exactly when every push sets what it bundled.
  lemma RunKeepsInvIff(links: Links, backend: Backend, states: seq<Remote>, events: seq<Event>)
    requires IsRun(links, backend, states, events)
    ensures SteadyRun(links, states, events) <==> forall n: nat | n < |states| :: Inv(links, states[n])
  {
    if SteadyRun(links, states, events) {
      forall n: nat | n < |states|
        ensures Inv(links, states[n])
      {
        RunsKeepInv(links, backend, states, events, n);
      }
    } else {
      var i :| 0 <= i < |events| && !Steady(links, states[i], events[i]);
      assert Step(links, backend, states[i], events[i], states[i + 1]);
      if Inv(links, states[i]) {
        UnsteadyStepBreaks(links, backend, states[i], events[i]);
        assert !Inv(links, states[i + 1]);
      }
    }
  }

  // Repositories change freely, except between making a bundle and writing its manifest.
  predicate Undisturbed(states: seq<Remote>, events: seq<Event>)
    requires |states| == |events| + 1
  {
    forall i | 0 <= i < |events| && events[i].LocalChange? && events[i].p < |states[i].pushers| ::
      !Bundled(states[i].pushers[events[i].p].phase)
  }

  predicate Bundled(phase: PushPhase)
  {
    phase.MadeBundle? || phase.Stored?
  }

  predicate NamesHeld(s: Remote)
  {
    forall p | 0 <= p < |s.pushers| :: PusherHeld(s.pushers[p])
  }

  // Nothing has moved since the bundle was made.
  predicate PusherHeld(q: Pusher)
  {
    && (Bundled(q.phase) ==> q.phase.names == q.git.names)
    && (q.phase.Stored? ==> |q.phase.found| <= |q.phase.specs| && Agree(q.phase.specs, q.phase.found, q.phase.names))
  }

  lemma UndisturbedStep(links: Links, backend: Backend, s: Remote, e: Event)
    requires Enabled(links, backend, s, e) && NamesHeld(s)
    requires e.LocalChange? ==> !Bundled(s.pushers[e.p].phase)
    ensures NamesHeld(Next(links, backend, s, e))
  {
    var s' := Next(links, backend, s, e);
    forall p | 0 <= p < |s'.pushers|
      ensures PusherHeld(s'.pushers[p])
    {
      assert PusherHeld(s.pushers[p]);
    }
  }

  lemma HeldNamesAreSteady(links: Links, backend: Backend, s: Remote, e: Event)
    requires Inv(links, s) && Enabled(links, backend, s, e) && NamesHeld(s)
    ensures Steady(links, s, e)
  {
    if e.WriteManifest? {
      assert PusherFine(links, s.store, s.pushers[e.p]) && PusherHeld(s.pushers[e.p]);
      SteadyNamesAreBundled(links, s.store, s.pushers[e.p]);
    }
  }

  lemma UndisturbedRunIsSteady(links: Links, backend: Backend, states: seq<Remote>, events: seq<Event>, n: nat)
    requires IsRun(links, backend, states, events) && Undisturbed(states, events) && n < |states|
    ensures Inv(links, states[n]) && NamesHeld(states[n])
    ensures forall i | 0 <= i < n :: Steady(links, states[i], events[i])
  {
    if n > 0 {
      UndisturbedRunIsSteady(links, backend, states, events, n - 1);
      assert Step(links, backend, states[n - 1], events[n - 1], states[n]);
      HeldNamesAreSteady(links, backend, states[n - 1], events[n - 1]);
      StepKeepsInv(links, backend, states[n - 1], events[n - 1]);
      UndisturbedStep(links, backend, states[n - 1], events[n - 1]);
    }
  }

  lemma RunGoesOn(links: Links, backend: Backend, states: seq<Remote>, events: seq<Event>, e: Event, s: Remote)
    returns (states': seq<Remote>, events': seq<Event>)
    requires IsRun(links, backend, states, events)
    requires Step(links, backend, states[|events|], e, s)
    ensures IsRun(links, backend, states', events') && states' == states + [s] && events' == events + [e]
  {
    states', events' := states + [s], events + [e];
    forall i | 0 <= i < |events'|
      ensures Step(links, backend, states'[i], events'[i], states'[i + 1])
    {
      if i < |events| {
        assert Step(links, backend, states[i], events[i], states[i + 1]);
      }
    }
  }

  // In every interleaving in which the pushes set their refs to what they bundled, every manifest
  // ever written names only stored bundles, and replaying them from nothing meets every
  // prerequisite and yields every ref with all it refers to.
  lemma EveryManifestIsSelfContained(links: Links, backend: Backend, states: seq<Remote>, events: seq<Event>,
                                     n: nat, i: nat)
    requires IsRun(links, backend, states, events) && SteadyRun(links, states, events)
    requires n < |states| && i < |states[n].manifests|
    ensures SelfContained(links, states[n].store, states[n].manifests[i])
    ensures Reach(links, states[n].manifests[i].refs.Values)
         <= Contents(states[n].store, states[n].manifests[i].bundles)
  {
    RunsKeepInv(links, backend, states, events, n);
    var m, store := states[n].manifests[i], states[n].store;
    ReplayableIsClosed(links, store, m.bundles);
    ReachIsLeast(links, m.refs.Values, Contents(store, m.bundles));
  }

  // In every such interleaving a reader never misses a bundle or a prerequisite, its repository
  // never lacks anything, and a finished fetch has every ref of the manifest it took, with all it
  // refers to.
  lemma ReadersNeverFail(links: Links, backend: Backend, states: seq<Remote>, events: seq<Event>, n: nat, r: nat)
    requires IsRun(links, backend, states, events) && SteadyRun(links, states, events)
    requires n < |states| && r < |states[n].readers|
    ensures ReaderServed(links, states[n].readers[r])
  {
    RunsKeepInv(links, backend, states, events, n);
    var x := states[n].readers[r];
    assert ReaderFine(links, states[n].store, x);
    if x.phase.Fetched? {
      ReachIsLeast(links, x.phase.manifest.refs.Values, x.objects);
    }
  }

  ghost predicate ReaderServed(links: Links, x: Reader)
  {
    && !x.phase.FetchFailed?
    && Closed(links, x.objects)
    && (x.phase.Fetched? ==> Reach(links, x.phase.manifest.refs.Values) <= x.objects)
  }

  // The same for runs in which no repository changes between its bundle and its manifest.
  lemma UndisturbedManifestsAreSelfContained(links: Links, backend: Backend, states: seq<Remote>, events: seq<Event>,
                                             n: nat, i: nat)
    requires IsRun(links, backend, states, events) && Undisturbed(states, events)
    requires n < |states| && i < |states[n].manifests|
    ensures SelfContained(links, states[n].store, states[n].manifests[i])
    ensures Reach(links, states[n].manifests[i].refs.Values)
         <= Contents(states[n].store, states[n].manifests[i].bundles)
  {
    UndisturbedRunIsSteady(links, backend, states, events, |events|);
    EveryManifestIsSelfContained(links, backend, states, events, n, i);
  }

  lemma UndisturbedReadersNeverFail(links: Links, backend: Backend, states: seq<Remote>, events: seq<Event>,
                                    n: nat, r: nat)
    requires IsRun(links, backend, states, events) && Undisturbed(states, events)
    requires n < |states| && r < |states[n].readers|
    ensures ReaderServed(links, states[n].readers[r])
  {
    UndisturbedRunIsSteady(links, backend, states, events, |events|);
    ReadersNeverFail(links, backend, states, events, n, r);
  }
}
