// A run in which a pushed branch moves between the bundle and the manifest.
module MovedBranch {
  import opened CommitGraph
  import opened Options
  import opened HelperTypes
  import opened BundleStore
  import opened PushProtocol
  import opened PushRuns

  // A branch that moves from a to its child b after the bundle was made, as a run: the manifest
  // names b, and the bundle holds a alone. A fetch of it does not fail, and misses b.
  lemma MovedBranchBreaksManifest(backend: Backend) returns (links: Links, states: seq<Remote>, events: seq<Event>)
    ensures IsRun(links, backend, states, events) && !SteadyRun(links, states, events)
    ensures var s := states[|states| - 1];
            && |s.manifests| == 1 && !SelfContained(links, s.store, s.manifests[0])
            && s.manifests[0].refs == map["main" := "b"] && s.manifests[0].bundles == ["sha"]
            && Fits(s.store, {}, ["sha"], 0) && Contents(s.store, ["sha"]) == {"a"}
  {
    links := map["a" := {}, "b" := {"a"}];
    var git := LocalGit({"a", "b"}, map["main" := "a"], None);
    var moved := git.(names := map["main" := "b"]);
    var specs := [PushSpec(false, "main", "main")];
    var store := map["sha" := Bundle({}, {"a"})];
    states, events := FirstBundle(links, backend, git, specs);
    states, events := FirstUpload(links, backend, states, events, git, specs);
    var s := Remote(store, [], [Pusher(moved, Stored(None, specs, git.names, Some("sha"), []))], []);
    states, events := RunGoesOn(links, backend, states, events, LocalChange(0, moved), s);
    states, events := LastSteps(links, backend, states, events, s);
  }

  ghost predicate Branch(links: Links, git: LocalGit, specs: seq<PushSpec>)
  {
    && links == map["a" := {}, "b" := {"a"}]
    && git == LocalGit({"a", "b"}, map["main" := "a"], None)
    && specs == [PushSpec(false, "main", "main")]
  }

  // A push of the branch at a, up to where its bundle is made.
  lemma FirstBundle(links: Links, backend: Backend, git: LocalGit, specs: seq<PushSpec>)
    returns (states: seq<Remote>, events: seq<Event>)
    requires Branch(links, git, specs)
    ensures IsRun(links, backend, states, events)
    ensures states[|events|]
         == Remote(map[], [], [Pusher(git, MadeBundle(None, specs, git.names, Bundle({}, {"a"})))], [])
  {
    OneSource(specs);
    BundleOfOne(links, git, "main", "a");
    assert PrevRefs(None).Values == {};
    var s := Remote(map[], [], [Pusher(git, NotPushing)], []);
    states, events := [s], [];
    s := s.(pushers := [Pusher(git, ReadManifest(None, specs))]);
    states, events := RunGoesOn(links, backend, states, events, StartPush(0, specs, 0), s);
    s := s.(pushers := [Pusher(git, MadeBundle(None, specs, git.names, Bundle({}, {"a"})))]);
    states, events := RunGoesOn(links, backend, states, events, MakeBundle(0), s);
  }

  lemma FirstUpload(links: Links, backend: Backend, states: seq<Remote>, events: seq<Event>, git: LocalGit,
                    specs: seq<PushSpec>)
    returns (states': seq<Remote>, events': seq<Event>)
    requires Branch(links, git, specs) && IsRun(links, backend, states, events)
    requires states[|events|]
          == Remote(map[], [], [Pusher(git, MadeBundle(None, specs, git.names, Bundle({}, {"a"})))], [])
    ensures IsRun(links, backend, states', events')
    ensures states'[|events'|] == Remote(map["sha" := Bundle({}, {"a"})], [],
                                         [Pusher(git, Stored(None, specs, git.names, Some("sha"), []))], [])
  {
    var s := Remote(map["sha" := Bundle({}, {"a"})], [],
                    [Pusher(git, Stored(None, specs, git.names, Some("sha"), []))], []);
    states', events' := RunGoesOn(links, backend, states, events, Upload(0, "sha"), s);
  }

  // With the branch moved to b, rev-parse and the write.
  lemma LastSteps(links: Links, backend: Backend, states: seq<Remote>, events: seq<Event>, s: Remote)
    returns (states': seq<Remote>, events': seq<Event>)
    requires links == map["a" := {}, "b" := {"a"}] && IsRun(links, backend, states, events)
    requires s == states[|events|] && |s.pushers| == 1 && s.manifests == []
    requires s.store == map["sha" := Bundle({}, {"a"})] && s.pushers[0].git.names == map["main" := "b"]
    requires s.pushers[0].phase
          == Stored(None, [PushSpec(false, "main", "main")], map["main" := "a"], Some("sha"), [])
    ensures IsRun(links, backend, states', events') && !SteadyRun(links, states', events')
    ensures var s' := states'[|states'| - 1];
            && |s'.manifests| == 1 && s'.store == s.store && !SelfContained(links, s'.store, s'.manifests[0])
            && s'.manifests[0].refs == map["main" := "b"] && s'.manifests[0].bundles == ["sha"]
            && Fits(s'.store, {}, ["sha"], 0) && Contents(s'.store, ["sha"]) == {"a"}
  {
    var q := AfterAnswer(s.pushers[0]);
    assert Next(links, backend, s, RevParse(0)) == s.(pushers := [q]);
    states', events' := RunGoesOn(links, backend, states, events, RevParse(0), s.(pushers := [q]));
    ManifestOfB(links, s.store, q);
    var write := WriteManifest(0, "repo", None);
    var mid, n := states', |events'|;
    assert mid[n] == s.(pushers := [q]);
    var last := s.(pushers := [q.(phase := NotPushing)], manifests := [Written(q.phase, "repo", None)]);
    states', events' := RunGoesOn(links, backend, states', events', write, last);
    assert states'[n] == mid[n] && events'[n] == write;
    assert !Steady(links, mid[n], write);
  }

  lemma {:induction false} ManifestOfB(links: Links, store: Store, q: Pusher)
    requires links == map["a" := {}, "b" := {"a"}] && store == map["sha" := Bundle({}, {"a"})]
    requires q.phase
          == Stored(None, [PushSpec(false, "main", "main")], map["main" := "a"], Some("sha"), [Some("b")])
    ensures var m := Written(q.phase, "repo", None);
            && m.refs == map["main" := "b"] && m.bundles == ["sha"]
            && !SelfContained(links, store, m)
    ensures Fits(store, {}, ["sha"], 0) && Contents(store, ["sha"]) == {"a"}
    ensures !SetsBundled(links, store, q.phase)
  {
    var m, specs := Written(q.phase, "repo", None), q.phase.specs;
    assert m.bundles == ["sha"];
    ContentsOfOne(store, "sha");
    OneRef(specs[0], "b");
    assert m.refs["main"] == "b" && m.refs["main"] in m.refs.Values;
    OneSource(specs);
    assert Wanted(q.phase.names, ["main"]) == {"a"} by {
      assert ["main"][0] in q.phase.names;
    }
    assert Closed(links, {"a"});
    ReachIsLeast(links, {"a"}, {"a"});
    assert Contents(store, []) == {};
    LastSpecWins(map[], specs, q.phase.found, "main");
  }
}
