// Runs of the push protocol put together: a push or a fetch that nothing interrupts, and what a
// reader has that lists the refs first and fetches later, as git does.
module PushRuns {
  import opened CommitGraph
  import opened Options
  import opened HelperTypes
  import opened BundleStore
  import opened PushProtocol

  // The state after the events, if each of them is enabled.
  ghost function After(links: Links, backend: Backend, s: Remote, events: seq<Event>): Option<Remote>
    decreases |events|
  {
    if events == [] then Some(s)
    else if !Enabled(links, backend, s, events[0]) then None
    else After(links, backend, Next(links, backend, s, events[0]), events[1..])
  }

  lemma {:induction false} AfterBoth(links: Links, backend: Backend, s: Remote, a: seq<Event>, b: seq<Event>)
    requires After(links, backend, s, a).Some?
    ensures After(links, backend, s, a + b) == After(links, backend, After(links, backend, s, a).value, b)
    decreases |a|
  {
    if a == [] {
      assert a + b == b;
    } else {
      assert (a + b)[1..] == a[1..] + b;
      AfterBoth(links, backend, Next(links, backend, s, a[0]), a[1..], b);
    }
  }

  lemma Replaced<T>(s: seq<T>, i: nat, a: T, b: T)
    requires i < |s|
    ensures s[i := a][i := b] == s[i := b]
  {
  }

  lemma {:induction false} AfterOne(links: Links, backend: Backend, s: Remote, e: Event)
    requires Enabled(links, backend, s, e)
    ensures After(links, backend, s, [e]) == Some(Next(links, backend, s, e))
  {
    assert [e][1..] == [];
  }

  // A run goes on with them.
  lemma RunExtends(links: Links, backend: Backend, states: seq<Remote>, events: seq<Event>,
                   more: seq<Event>, s: Remote)
    returns (states': seq<Remote>)
    requires IsRun(links, backend, states, events) && After(links, backend, states[|events|], more) == Some(s)
    ensures IsRun(links, backend, states', events + more)
    ensures states <= states' && states'[|states'| - 1] == s
    decreases |more|
  {
    if more == [] {
      states' := states;
      assert events + more == events;
    } else {
      var next := Next(links, backend, states[|events|], more[0]);
      var longer, all := RunGoesOn(links, backend, states, events, more[0], next);
      states' := RunExtends(links, backend, longer, all, more[1..], s);
      assert all + more[1..] == events + more;
    }
  }

  // ---------------------------------------------------------------------------------------------
  // A push without interruption

  // The bundle of a push.
  ghost function Made(links: Links, git: LocalGit, prev: Option<Manifest>, specs: seq<PushSpec>): Option<Bundle>
  {
    if Sources(specs) == [] then None else CreateBundle(links, git, PrevRefs(prev).Values, Sources(specs))
  }

  function AnswersTo(specs: seq<PushSpec>, names: map<string, Oid>, n: nat): Answers
    requires n <= |specs|
  {
    seq(n, i requires 0 <= i < n => Answer(specs[i], names))
  }

  function RevParses(p: nat, n: nat): seq<Event>
  {
    if n == 0 then [] else [RevParse(p)] + RevParses(p, n - 1)
  }

  // The steps of a push from where it has read the manifest.
  function PushSteps(p: nat, specs: seq<PushSpec>, sha: Option<Sha>, repo: string, head: Option<string>): seq<Event>
  {
    [MakeBundle(p)] + ((if sha.Some? then [Upload(p, sha.value)] else [])
                       + (RevParses(p, |specs|) + [WriteManifest(p, repo, head)]))
  }

  lemma {:induction false} RevParsesAnswer(links: Links, backend: Backend, s: Remote, p: nat, n: nat)
    requires p < |s.pushers| && s.pushers[p].phase.Stored?
    requires var phase := s.pushers[p].phase;
             && |phase.found| + n <= |phase.specs|
             && phase.found == AnswersTo(phase.specs, s.pushers[p].git.names, |phase.found|)
    ensures var q := s.pushers[p];
            var found := AnswersTo(q.phase.specs, q.git.names, |q.phase.found| + n);
            After(links, backend, s, RevParses(p, n))
            == Some(s.(pushers := s.pushers[p := q.(phase := q.phase.(found := found))]))
    decreases n
  {
    var q := s.pushers[p];
    if n == 0 {
      assert s.pushers[p := q] == s.pushers;
    } else {
      var s' := Next(links, backend, s, RevParse(p));
      var q' := AfterAnswer(q);
      assert q'.phase.found == AnswersTo(q.phase.specs, q.git.names, |q.phase.found| + 1);
      assert RevParses(p, n)[1..] == RevParses(p, n - 1);
      RevParsesAnswer(links, backend, s', p, n - 1);
      var found := AnswersTo(q.phase.specs, q.git.names, |q.phase.found| + n);
      Replaced(s.pushers, p, q', q.(phase := q.phase.(found := found)));
    }
  }

  // The last steps: rev-parse of every spec, and the write.
  lemma {:induction false} PushEnds(links: Links, backend: Backend, s: Remote, p: nat, repo: string,
                                    head: Option<string>)
    requires p < |s.pushers| && s.pushers[p].phase.Stored? && s.pushers[p].phase.found == []
    ensures var q := s.pushers[p];
            var found := AnswersTo(q.phase.specs, q.git.names, |q.phase.specs|);
            After(links, backend, s, RevParses(p, |q.phase.specs|) + [WriteManifest(p, repo, head)])
            == Some(s.(manifests := s.manifests
                                    + [NewManifest(repo, q.phase.prev, q.phase.specs, found, head, q.phase.sha)],
                       pushers := s.pushers[p := q.(phase := NotPushing)]))
  {
    var q := s.pushers[p];
    var found := AnswersTo(q.phase.specs, q.git.names, |q.phase.specs|);
    var answered := s.(pushers := s.pushers[p := q.(phase := q.phase.(found := found))]);
    assert AnswersTo(q.phase.specs, q.git.names, 0) == [];
    RevParsesAnswer(links, backend, s, p, |q.phase.specs|);
    AfterBoth(links, backend, s, RevParses(p, |q.phase.specs|), [WriteManifest(p, repo, head)]);
    AfterOne(links, backend, answered, WriteManifest(p, repo, head));
    assert answered.pushers[p := q.(phase := NotPushing)] == s.pushers[p := q.(phase := NotPushing)];
  }

  // The state a push leaves, in the terms in which IpfsRemote.Push says what it does.
  ghost function Pushed(links: Links, s: Remote, p: nat, sha: Sha, repo: string, head: Option<string>): Remote
    requires p < |s.pushers| && s.pushers[p].phase.ReadManifest?
  {
    var git, phase := s.pushers[p].git, s.pushers[p].phase;
    var b := Made(links, git, phase.prev, phase.specs);
    var found := AnswersTo(phase.specs, git.names, |phase.specs|);
    Remote(WithBundle(s.store, b, _ => sha),
           s.manifests + [NewManifest(repo, phase.prev, phase.specs, found, head, ShaOf(b, _ => sha))],
           s.pushers[p := Pusher(git, NotPushing)],
           s.readers)
  }

  lemma {:induction false} BundleIsStored(links: Links, backend: Backend, s: Remote, p: nat, sha: Sha)
    requires p < |s.pushers| && s.pushers[p].phase.ReadManifest?
    requires var b := Made(links, s.pushers[p].git, s.pushers[p].phase.prev, s.pushers[p].phase.specs);
             b.Some? && (sha in s.store ==> s.store[sha] == b.value)
    ensures var git, phase := s.pushers[p].git, s.pushers[p].phase;
            var b := Made(links, git, phase.prev, phase.specs).value;
            After(links, backend, s, [MakeBundle(p)] + [Upload(p, sha)])
            == Some(s.(store := s.store[sha := b],
                       pushers := s.pushers[p := Pusher(git, Stored(phase.prev, phase.specs, git.names,
                                                                    Some(sha), []))]))
  {
    var git, phase := s.pushers[p].git, s.pushers[p].phase;
    var b := Made(links, git, phase.prev, phase.specs).value;
    var s' := s.(pushers := s.pushers[p := Pusher(git, MadeBundle(phase.prev, phase.specs, git.names, b))]);
    AfterOne(links, backend, s, MakeBundle(p));
    AfterBoth(links, backend, s, [MakeBundle(p)], [Upload(p, sha)]);
    AfterOne(links, backend, s', Upload(p, sha));
    Replaced(s.pushers, p, s'.pushers[p], Pusher(git, Stored(phase.prev, phase.specs, git.names, Some(sha), [])));
  }

  // A push that nothing interrupts, in a repository that holds still, leaves the bundles and the
  // manifest that IpfsRemote.Push leaves, and nothing when git makes no bundle.
  lemma {:induction false} UninterruptedPush(links: Links, backend: Backend, s: Remote, p: nat, sha: Sha, repo: string,
                                             head: Option<string>)
    requires p < |s.pushers| && s.pushers[p].phase.ReadManifest?
    requires var b := Made(links, s.pushers[p].git, s.pushers[p].phase.prev, s.pushers[p].phase.specs);
             b.Some? && sha in s.store ==> s.store[sha] == b.value
    ensures var git, phase := s.pushers[p].git, s.pushers[p].phase;
            var b := Made(links, git, phase.prev, phase.specs);
            if Sources(phase.specs) != [] && b.None? then
              After(links, backend, s, [MakeBundle(p)]) == Some(s.(pushers := s.pushers[p := Pusher(git, NotPushing)]))
            else
              After(links, backend, s, PushSteps(p, phase.specs, ShaOf(b, _ => sha), repo, head))
              == Some(Pushed(links, s, p, sha, repo, head))
  {
    var git, phase := s.pushers[p].git, s.pushers[p].phase;
    var b := Made(links, git, phase.prev, phase.specs);
    var ends := RevParses(p, |phase.specs|) + [WriteManifest(p, repo, head)];
    AfterOne(links, backend, s, MakeBundle(p));
    if b.Some? {
      var s' := s.(store := s.store[sha := b.value],
                   pushers := s.pushers[p := Pusher(git, Stored(phase.prev, phase.specs, git.names, Some(sha), []))]);
      BundleIsStored(links, backend, s, p, sha);
      AfterBoth(links, backend, s, [MakeBundle(p)] + [Upload(p, sha)], ends);
      PushEnds(links, backend, s', p, repo, head);
      assert [MakeBundle(p)] + [Upload(p, sha)] + ends == [MakeBundle(p)] + ([Upload(p, sha)] + ends);
      assert s'.pushers[p := Pusher(git, NotPushing)] == s.pushers[p := Pusher(git, NotPushing)];
    } else if Sources(phase.specs) == [] {
      var s' := s.(pushers := s.pushers[p := Pusher(git, Stored(phase.prev, phase.specs, git.names, None, []))]);
      AfterBoth(links, backend, s, [MakeBundle(p)], ends);
      PushEnds(links, backend, s', p, repo, head);
      assert [MakeBundle(p)] + ([] + ends) == [MakeBundle(p)] + ends;
      assert s'.pushers[p := Pusher(git, NotPushing)] == s.pushers[p := Pusher(git, NotPushing)];
    }
  }

  // ---------------------------------------------------------------------------------------------
  // A fetch without interruption

  function FetchSteps(r: nat, n: nat): seq<Event>
  {
    if n == 0 then [] else FetchSteps(r, n - 1) + [FetchBundle(r)]
  }

  // Every bundle that fits goes in.
  lemma {:induction false} FetchedSome(links: Links, backend: Backend, s: Remote, r: nat, n: nat)
    requires r < |s.readers| && s.readers[r].phase.Fetching? && s.readers[r].phase.next == 0
    requires var m := s.readers[r].phase.manifest;
             n <= |m.bundles| && forall i: nat | i < n :: Fits(s.store, s.readers[r].objects, m.bundles, i)
    ensures var x := s.readers[r];
            After(links, backend, s, FetchSteps(r, n))
            == Some(s.(readers := s.readers[r := Reader(x.objects + Contents(s.store, x.phase.manifest.bundles[..n]),
                                                        Fetching(x.phase.manifest, n))]))
  {
    var x, shas := s.readers[r], s.readers[r].phase.manifest.bundles;
    if n == 0 {
      assert x.objects + {} == x.objects;
      assert s.readers[r := x] == s.readers;
    } else {
      FetchedSome(links, backend, s, r, n - 1);
      var before := Reader(x.objects + Contents(s.store, shas[..n - 1]), Fetching(x.phase.manifest, n - 1));
      var s' := s.(readers := s.readers[r := before]);
      FetchedOne(s.store, x.objects, x.phase.manifest, n - 1);
      AfterOne(links, backend, s', FetchBundle(r));
      AfterBoth(links, backend, s, FetchSteps(r, n - 1), [FetchBundle(r)]);
      Replaced(s.readers, r, before, AfterFetch(s.store, before));
    }
  }

  lemma {:induction false} FetchedOne(store: Store, objects: set<Oid>, m: Manifest, n: nat)
    requires n < |m.bundles| && Fits(store, objects, m.bundles, n)
    ensures AfterFetch(store, Reader(objects + Contents(store, m.bundles[..n]), Fetching(m, n)))
         == Reader(objects + Contents(store, m.bundles[..n + 1]), Fetching(m, n + 1))
  {
    assert m.bundles[..n + 1][..n] == m.bundles[..n];
    assert objects + Contents(store, m.bundles[..n]) + store[m.bundles[n]].objects
        == objects + Contents(store, m.bundles[..n + 1]);
  }

  // The reader a fetch of m leaves, in the terms in which IpfsRemote.Fetch says what it does: n is
  // the first bundle that does not fit, or the number of bundles.
  function FetchedTo(store: Store, objects: set<Oid>, m: Manifest, n: nat): Reader
    requires n <= |m.bundles|
  {
    Reader(objects + Contents(store, m.bundles[..n]),
           if n == |m.bundles| then Fetched(m)
           else FetchFailed(FetchFailure(_ => true, store, m.bundles[n])))
  }

  lemma UninterruptedFetch(links: Links, backend: Backend, s: Remote, r: nat, n: nat)
    requires r < |s.readers| && s.readers[r].phase.Fetching? && s.readers[r].phase.next == 0
    requires var m := s.readers[r].phase.manifest;
             && n <= |m.bundles|
             && (forall i: nat | i < n :: Fits(s.store, s.readers[r].objects, m.bundles, i))
             && (n < |m.bundles| ==> !Fits(s.store, s.readers[r].objects, m.bundles, n))
    ensures var x := s.readers[r];
            After(links, backend, s, FetchSteps(r, n + 1))
            == Some(s.(readers := s.readers[r := FetchedTo(s.store, x.objects, x.phase.manifest, n)]))
  {
    var x, m := s.readers[r], s.readers[r].phase.manifest;
    var before := Reader(x.objects + Contents(s.store, m.bundles[..n]), Fetching(m, n));
    FetchedSome(links, backend, s, r, n);
    AfterOne(links, backend, s.(readers := s.readers[r := before]), FetchBundle(r));
    AfterBoth(links, backend, s, FetchSteps(r, n), [FetchBundle(r)]);
    Replaced(s.readers, r, before, FetchedTo(s.store, x.objects, m, n));
  }

  // ---------------------------------------------------------------------------------------------
  // Listing first, fetching later

  function Latest(s: Remote): Option<Manifest>
  {
    if s.manifests == [] then None else Some(s.manifests[|s.manifests| - 1])
  }

  // The push that writes has read the manifest that is the last one now.
  predicate Appends(s: Remote, e: Event)
  {
    e.WriteManifest? && e.p < |s.pushers| && s.pushers[e.p].phase.Stored? ==> s.pushers[e.p].phase.prev == Latest(s)
  }

  // So do all writes from state i up to state j.
  predicate AllAppend(states: seq<Remote>, events: seq<Event>, i: nat, j: nat)
    requires |states| == |events| + 1 && i <= j < |states|
  {
    forall k | i <= k < j :: Appends(states[k], events[k])
  }

  // The list of the last manifest then only grows.
  lemma ListGrows(links: Links, backend: Backend, states: seq<Remote>, events: seq<Event>,
                  i: nat, j: nat)
    requires IsRun(links, backend, states, events) && i <= j < |states| && AllAppend(states, events, i, j)
    ensures PrevBundles(Latest(states[i])) <= PrevBundles(Latest(states[j]))
    ensures |states[i].manifests| <= |states[j].manifests|
    decreases j
  {
    if i < j {
      ListGrows(links, backend, states, events, i, j - 1);
      assert Step(links, backend, states[j - 1], events[j - 1], states[j]);
      ListStep(links, backend, states[j - 1], events[j - 1]);
    }
  }

  lemma ListStep(links: Links, backend: Backend, s: Remote, e: Event)
    requires Enabled(links, backend, s, e) && Appends(s, e)
    ensures var s' := Next(links, backend, s, e);
            PrevBundles(Latest(s)) <= PrevBundles(Latest(s')) && |s.manifests| <= |s'.manifests|
  {
  }

  lemma StoreGrows(links: Links, backend: Backend, states: seq<Remote>, events: seq<Event>,
                   i: nat, j: nat)
    requires IsRun(links, backend, states, events) && i <= j < |states|
    ensures Extends(states[i].store, states[j].store)
    decreases j
  {
    if i < j {
      StoreGrows(links, backend, states, events, i, j - 1);
      assert Step(links, backend, states[j - 1], events[j - 1], states[j]);
      StoreStep(links, backend, states[j - 1], events[j - 1]);
    }
  }

  lemma StoreStep(links: Links, backend: Backend, s: Remote, e: Event)
    requires Enabled(links, backend, s, e)
    ensures Extends(s.store, Next(links, backend, s, e).store)
  {
  }

  lemma {:induction false} ContentsGrow(store: Store, shas: seq<Sha>, more: seq<Sha>)
    requires shas <= more
    ensures Contents(store, shas) <= Contents(store, more)
    decreases |more|
  {
    if shas != more {
      ContentsGrow(store, shas, more[..|more| - 1]);
    }
  }

  // A reader that lists the refs at state i and has fetched the manifest that is last at state j has
  // every listed ref with all it refers to, if every write in between appends.
  lemma ListedRefsAreHeld(links: Links, backend: Backend, states: seq<Remote>, events: seq<Event>,
                          i: nat, j: nat, n: nat, r: nat)
    requires IsRun(links, backend, states, events) && SteadyRun(links, states, events)
    requires i <= j <= n < |states| && AllAppend(states, events, i, j) && states[i].manifests != []
    requires r < |states[n].readers| && states[n].readers[r].phase.Fetched?
    requires Some(states[n].readers[r].phase.manifest) == Latest(states[j])
    ensures Reach(links, Latest(states[i]).value.refs.Values) <= states[n].readers[r].objects
  {
    var listed, x, store := Latest(states[i]).value, states[n].readers[r], states[n].store;
    RunsKeepInv(links, backend, states, events, i);
    RunsKeepInv(links, backend, states, events, n);
    StoreGrows(links, backend, states, events, i, n);
    SelfContainedGrows(links, states[i].store, store, listed);
    ListGrows(links, backend, states, events, i, j);
    ContentsGrow(store, listed.bundles, x.phase.manifest.bundles);
    assert ReaderFine(links, store, x);
    ReachIsLeast(links, listed.refs.Values, x.objects);
  }

  // No push that writes names d.
  predicate Spares(s: Remote, e: Event, d: string)
  {
    e.WriteManifest? && e.p < |s.pushers| && s.pushers[e.p].phase.Stored? ==>
      forall i | 0 <= i < |s.pushers[e.p].phase.specs| :: s.pushers[e.p].phase.specs[i].dst != d
  }

  predicate SameRef(a: map<string, Oid>, b: map<string, Oid>, d: string)
  {
    (d in a <==> d in b) && (d in a ==> a[d] == b[d])
  }

  lemma {:induction false} NoSpecFor(specs: seq<PushSpec>, found: Answers, d: string)
    requires |found| == |specs| && forall i | 0 <= i < |specs| :: specs[i].dst != d
    ensures LastFor(specs, found, d) == -1
  {
    if specs != [] {
      NoSpecFor(specs[..|specs| - 1], found[..|specs| - 1], d);
    }
  }

  // A ref that a push reported as set stays as it was set through later pushes that append and do
  // not name it.
  lemma RefSurvives(links: Links, backend: Backend, states: seq<Remote>, events: seq<Event>,
                    i: nat, j: nat, d: string)
    requires IsRun(links, backend, states, events) && i <= j < |states| && AllAppend(states, events, i, j)
    requires forall k | i <= k < j :: Spares(states[k], events[k], d)
    ensures SameRef(PrevRefs(Latest(states[i])), PrevRefs(Latest(states[j])), d)
    decreases j
  {
    if i < j {
      RefSurvives(links, backend, states, events, i, j - 1, d);
      assert Step(links, backend, states[j - 1], events[j - 1], states[j]);
      RefSurvivesStep(links, backend, states[j - 1], events[j - 1], d);
    }
  }

  lemma RefSurvivesStep(links: Links, backend: Backend, s: Remote, e: Event, d: string)
    requires Enabled(links, backend, s, e) && Appends(s, e) && Spares(s, e, d)
    ensures SameRef(PrevRefs(Latest(s)), PrevRefs(Latest(Next(links, backend, s, e))), d)
  {
    if e.WriteManifest? {
      var phase := s.pushers[e.p].phase;
      NoSpecFor(phase.specs, phase.found, d);
      LastSpecWins(PrevRefs(phase.prev), phase.specs, phase.found, d);
    }
  }

  // ---------------------------------------------------------------------------------------------
  // A lost update

  lemma {:induction false} ContentsOfOne(store: Store, sha: Sha)
    requires sha in store && store[sha].prerequisites == {}
    ensures Contents(store, [sha]) == store[sha].objects && Fits(store, {}, [sha], 0)
  {
    assert [sha][..0] == [];
    assert Contents(store, []) == {};
  }

  lemma OneRef(s: PushSpec, o: Oid)
    requires s.src != ""
    ensures UpdatedRefs(map[], [s], [Some(o)]) == map[s.dst := o]
  {
    assert [s][..0] == [];
  }

  lemma {:induction false} OneSource(specs: seq<PushSpec>)
    requires |specs| == 1 && specs[0].src != ""
    ensures Sources(specs) == [specs[0].src]
  {
  }

  lemma BundleOfOne(links: Links, git: LocalGit, name: string, o: Oid)
    requires o in links && links[o] == {} && git.names == map[name := o]
    ensures CreateBundle(links, git, {}, [name]) == Some(Bundle({}, {o}))
  {
    assert Closed(links, {o}) && Closed(links, {});
    ReachIsLeast(links, {}, {});
    ReachIsLeast(links, {o}, {o});
    ReachHoldsRoots(links, {o});
    assert Wanted(git.names, [name]) == {o} by {
      assert [name][0] in git.names;
    }
    assert Resolves(git, [name]);
    var b := CreateBundle(links, git, {}, [name]);
    assert b.value.objects == {o};
    assert b.value.prerequisites == {};
  }

  function FirstManifest(name: string, o: Oid, sha: Sha): Manifest
  {
    Manifest("repo", map[name := o], None, [sha], None)
  }

  lemma FirstManifestIs(name: string, o: Oid, sha: Sha, specs: seq<PushSpec>, names: map<string, Oid>)
    requires name != "" && specs == [PushSpec(false, name, name)] && names == map[name := o]
    ensures NewManifest("repo", None, specs, AnswersTo(specs, names, 1), None, Some(sha)) == FirstManifest(name, o, sha)
  {
    assert AnswersTo(specs, names, 1) == [Some(o)];
    OneRef(specs[0], o);
    assert specs == [specs[0]];
  }

  // A push of one branch by a pusher that found no manifest.
  lemma {:induction false} FirstPushOf(links: Links, backend: Backend, s: Remote, p: nat, name: string, o: Oid,
                                       sha: Sha)
    requires p < |s.pushers| && s.pushers[p].phase == ReadManifest(None, [PushSpec(false, name, name)])
    requires name != "" && s.pushers[p].git.names == map[name := o] && o in links && links[o] == {}
    requires sha !in s.store
    ensures After(links, backend, s, PushSteps(p, [PushSpec(false, name, name)], Some(sha), "repo", None))
         == Some(Remote(s.store[sha := Bundle({}, {o})],
                        s.manifests + [FirstManifest(name, o, sha)],
                        s.pushers[p := Pusher(s.pushers[p].git, NotPushing)],
                        s.readers))
  {
    var git, specs := s.pushers[p].git, s.pushers[p].phase.specs;
    OneSource(specs);
    assert PrevRefs(None).Values == {};
    BundleOfOne(links, git, name, o);
    FirstManifestIs(name, o, sha, specs, git.names);
    UninterruptedPush(links, backend, s, p, sha, "repo", None);
  }

  lemma StepsChangeNoRepository(p: nat, specs: seq<PushSpec>, sha: Sha)
    ensures forall e <- PushSteps(p, specs, Some(sha), "repo", None) :: !e.LocalChange?
  {
    RevParsesOnly(p, |specs|);
  }

  lemma {:induction false} RevParsesOnly(p: nat, n: nat)
    ensures forall e <- RevParses(p, n) :: !e.LocalChange?
  {
    if n > 0 {
      RevParsesOnly(p, n - 1);
    }
  }

  // Two branches, x at a and y at b, each in a repository of its own.
  const LINKS: Links := map["a" := {}, "b" := {}]
  const GIT_X := LocalGit({"a"}, map["x" := "a"], None)
  const GIT_Y := LocalGit({"b"}, map["y" := "b"], None)
  const PUSH_X := [PushSpec(false, "x", "x")]
  const PUSH_Y := [PushSpec(false, "y", "y")]
  const MANIFEST_X := FirstManifest("x", "a", "sx")
  const MANIFEST_Y := FirstManifest("y", "b", "sy")

  // Both pushers have found no manifest.
  lemma BothStarted(backend: Backend) returns (states: seq<Remote>, events: seq<Event>)
    ensures IsRun(LINKS, backend, states, events) && forall e <- events :: !e.LocalChange?
    ensures states[|events|] == Remote(map[], [], [Pusher(GIT_X, ReadManifest(None, PUSH_X)),
                                                   Pusher(GIT_Y, ReadManifest(None, PUSH_Y))],
                                       [Reader({}, NotFetching)])
  {
    var s := Remote(map[], [], [Pusher(GIT_X, NotPushing), Pusher(GIT_Y, NotPushing)], [Reader({}, NotFetching)]);
    assert Closed(LINKS, {"a"}) && Closed(LINKS, {"b"}) && Closed(LINKS, {}) && Complete(LINKS);
    states, events := [s], [];
    s := s.(pushers := [Pusher(GIT_X, ReadManifest(None, PUSH_X)), Pusher(GIT_Y, NotPushing)]);
    states, events := RunGoesOn(LINKS, backend, states, events, StartPush(0, PUSH_X, 0), s);
    s := s.(pushers := [Pusher(GIT_X, ReadManifest(None, PUSH_X)), Pusher(GIT_Y, ReadManifest(None, PUSH_Y))]);
    states, events := RunGoesOn(LINKS, backend, states, events, StartPush(1, PUSH_Y, 0), s);
  }

  // The first of them is done.
  lemma FirstDone(backend: Backend) returns (states: seq<Remote>, events: seq<Event>)
    ensures IsRun(LINKS, backend, states, events) && forall e <- events :: !e.LocalChange?
    ensures states[|events|] == Remote(map["sx" := Bundle({}, {"a"})], [MANIFEST_X],
                                       [Pusher(GIT_X, NotPushing), Pusher(GIT_Y, ReadManifest(None, PUSH_Y))],
                                       [Reader({}, NotFetching)])
  {
    states, events := BothStarted(backend);
    var s, steps := states[|events|], PushSteps(0, PUSH_X, Some("sx"), "repo", None);
    FirstPushOf(LINKS, backend, s, 0, "x", "a", "sx");
    StepsChangeNoRepository(0, PUSH_X, "sx");
    states, events := GoOn(backend, states, events, steps, After(LINKS, backend, s, steps).value);
  }

  // So is the second.
  lemma SecondDone(backend: Backend, states: seq<Remote>, events: seq<Event>)
    returns (states': seq<Remote>, events': seq<Event>)
    requires IsRun(LINKS, backend, states, events) && forall e <- events :: !e.LocalChange?
    requires states[|events|] == Remote(map["sx" := Bundle({}, {"a"})], [MANIFEST_X],
                                        [Pusher(GIT_X, NotPushing), Pusher(GIT_Y, ReadManifest(None, PUSH_Y))],
                                        [Reader({}, NotFetching)])
    ensures IsRun(LINKS, backend, states', events') && (forall e <- events' :: !e.LocalChange?) && states <= states'
    ensures var s := states'[|events'|];
            && s.manifests == [MANIFEST_X, MANIFEST_Y] && s.readers == [Reader({}, NotFetching)]
            && "sy" in s.store && s.store["sy"] == Bundle({}, {"b"})
  {
    var s, steps := states[|events|], PushSteps(1, PUSH_Y, Some("sy"), "repo", None);
    FirstPushOf(LINKS, backend, s, 1, "y", "b", "sy");
    StepsChangeNoRepository(1, PUSH_Y, "sy");
    states', events' := GoOn(backend, states, events, steps, After(LINKS, backend, s, steps).value);
  }

  // Two pushes that start from no manifest. The refs listed between their writes name a; the fetch
  // after the second write succeeds, and a is not there. The first push was reported as done, and
  // its ref is gone.
  lemma ListedRefIsMissing(backend: Backend) returns (states: seq<Remote>, events: seq<Event>, i: nat)
    ensures IsRun(LINKS, backend, states, events) && Undisturbed(states, events) && SteadyRun(LINKS, states, events)
    ensures i < |states| && states[i].manifests == [MANIFEST_X] && MANIFEST_X.refs == map["x" := "a"]
    ensures var s := states[|states| - 1];
            && s.manifests == [MANIFEST_X, MANIFEST_Y] && "x" !in MANIFEST_Y.refs
            && s.readers == [Reader({"b"}, Fetched(MANIFEST_Y))]
  {
    var first, early := FirstDone(backend);
    i := |early|;
    var second, late := SecondDone(backend, first, early);
    var s := second[|late|];
    FetchesY(backend, s);
    states, events := GoOn(backend, second, late, [StartFetch(0, 1)] + FetchSteps(0, 2),
                           s.(readers := [Reader({"b"}, Fetched(MANIFEST_Y))]));
    assert states[i] == second[i] == first[i];
    UndisturbedRunIsSteady(LINKS, backend, states, events, |events|);
  }

  lemma GoOn(backend: Backend, states: seq<Remote>, events: seq<Event>, more: seq<Event>, s: Remote)
    returns (states': seq<Remote>, events': seq<Event>)
    requires IsRun(LINKS, backend, states, events) && After(LINKS, backend, states[|events|], more) == Some(s)
    requires (forall e <- events :: !e.LocalChange?) && (forall e <- more :: !e.LocalChange?)
    ensures IsRun(LINKS, backend, states', events') && states <= states' && states'[|events'|] == s
    ensures (forall e <- events' :: !e.LocalChange?) && Undisturbed(states', events')
  {
    states' := RunExtends(LINKS, backend, states, events, more, s);
    events' := events + more;
    forall k | 0 <= k < |events'|
      ensures !events'[k].LocalChange?
    {
      assert events'[k] in events || events'[k] in more;
    }
  }

  lemma {:induction false} TwoFetchSteps(r: nat)
    ensures FetchSteps(r, 2) == [FetchBundle(r), FetchBundle(r)]
  {
    assert FetchSteps(r, 1) == FetchSteps(r, 0) + [FetchBundle(r)];
  }

  lemma {:induction false} FetchesY(backend: Backend, s: Remote)
    requires s.manifests == [MANIFEST_X, MANIFEST_Y] && s.readers == [Reader({}, NotFetching)]
    requires "sy" in s.store && s.store["sy"] == Bundle({}, {"b"})
    ensures After(LINKS, backend, s, [StartFetch(0, 1)] + FetchSteps(0, 2))
         == Some(s.(readers := [Reader({"b"}, Fetched(MANIFEST_Y))]))
    ensures forall e <- [StartFetch(0, 1)] + FetchSteps(0, 2) :: !e.LocalChange?
  {
    var s' := s.(readers := [Reader({}, Fetching(MANIFEST_Y, 0))]);
    assert Next(LINKS, backend, s, StartFetch(0, 1)) == s';
    AfterOne(LINKS, backend, s, StartFetch(0, 1));
    AfterBoth(LINKS, backend, s, [StartFetch(0, 1)], FetchSteps(0, 2));
    ContentsOfOne(s.store, "sy");
    UninterruptedFetch(LINKS, backend, s', 0, 1);
    assert MANIFEST_Y.bundles[..1] == ["sy"];
    assert FetchedTo(s.store, {}, MANIFEST_Y, 1) == Reader({"b"}, Fetched(MANIFEST_Y));
    assert s'.readers[0 := Reader({"b"}, Fetched(MANIFEST_Y))] == [Reader({"b"}, Fetched(MANIFEST_Y))];
    TwoFetchSteps(0);
  }
}
