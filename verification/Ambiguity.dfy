/**
 * When the rendered configuration does not tell what was asked for: a resource for which another
 * one, different in what Kea sees of it, renders to the very same tree.
 */
module Ambiguity {
  import opened Options
  import opened Json
  import opened Spec
  import opened Render
  import opened Secrets

  /** Two resources that Kea cannot tell apart although they differ in what it sees of them. */
  ghost predicate Confused(spec: Dhcp4Spec, creds: Credentials, override: string,
                           spec': Dhcp4Spec, creds': Credentials, override': string) {
    && RootTree(spec, creds, override) == RootTree(spec', creds', override')
    && Norm(spec, creds, override) != Norm(spec', creds', override')
  }

  ghost predicate Ambiguous(spec: Dhcp4Spec, creds: Credentials, override: string) {
    exists spec', creds', override' :: Confused(spec, creds, override, spec', creds', override')
  }

  /** The settings in the parameters of a hook. */
  function SettingsIn(h: HookLibrary): HAConfig {
    var parameters := if h.parameters.Parsed? then Of(h.parameters.value) else map[];
    var configs := ElemsOf(Lookup(parameters, HIGH_AVAILABILITY));
    DecodeHA(if configs != [] then configs[0] else Null)
  }

  /** The hook the operator injects for given settings. */
  function InjectedHook(ha: HAConfig, name: string, port: int): HookLibrary {
    HookLibrary(HA_LIBRARY, Parsed(HAParameters(HATree(ha, name, port))))
  }

  /**
   * Without high availability and database hook, the user's own hooks end in the two the operator
   * injects, and the second one is just what the operator writes for the settings in it.
   */
  predicate Imitates(spec: Dhcp4Spec) {
    && spec.highAvailability.None? && !InjectsDBHook(spec.leaseDatabase) && |spec.hooksLibraries| >= 2
    && var leases, ha := spec.hooksLibraries[|spec.hooksLibraries| - 2], spec.hooksLibraries[|spec.hooksLibraries| - 1];
       && leases.library == LEASE_CMDS_LIBRARY && !leases.parameters.Parsed?
       && ha == InjectedHook(SettingsIn(ha), SettingsIn(ha).thisServerName, HAPort(spec.controlSocket))
  }

  // ---------- what a tree determines ----------

  /** The resource without hooks. */
  function Bare(spec: Dhcp4Spec): Dhcp4Spec { spec.(hooksLibraries := [], highAvailability := None) }

  lemma BareShared(spec: Dhcp4Spec, creds: Credentials)
    ensures Shared(Bare(spec), creds) == Shared(spec, creds)
    ensures Lookup(Shared(spec, creds), HOOKS_LIBRARIES) == None
  {
    SharedLookups(spec, creds);
    LastSectionLookups(spec, creds);
  }

  lemma HooksSplit(m: Fields, hooks: seq<Json>, m': Fields, hooks': seq<Json>)
    requires Lookup(m, HOOKS_LIBRARIES) == None && Lookup(m', HOOKS_LIBRARIES) == None
    requires RootOf(Put(m, HOOKS_LIBRARIES, Array(hooks))) == RootOf(Put(m', HOOKS_LIBRARIES, Array(hooks')))
    ensures m == m' && hooks == hooks'
  {
    var a, b := Put(m, HOOKS_LIBRARIES, Array(hooks)), Put(m', HOOKS_LIBRARIES, Array(hooks'));
    Dhcp4OfRoot(a);
    Dhcp4OfRoot(b);
    assert ElemsOf(Lookup(a, HOOKS_LIBRARIES)) == hooks && ElemsOf(Lookup(b, HOOKS_LIBRARIES)) == hooks';
    forall k ensures (k in m <==> k in m') && (k in m ==> m[k] == m'[k]) {
      assert k != HOOKS_LIBRARIES ==> Lookup(m, k) == Lookup(a, k) == Lookup(b, k) == Lookup(m', k);
    }
  }

  lemma LeaseDatabase(spec: Dhcp4Spec, creds: Credentials)
    ensures DecodeOptDatabase(Lookup(Shared(spec, creds), LEASE_DATABASE)) == NormOptDatabase(spec.leaseDatabase)
  {
    SharedLookups(spec, creds);
    FirstSectionLookups(spec, creds);
    OptDatabaseRoundTrip(spec.leaseDatabase, creds.lease);
  }

  lemma SameDBHook(db: Option<DatabaseConfig>, db': Option<DatabaseConfig>)
    requires NormOptDatabase(db) == NormOptDatabase(db')
    ensures DBHookElems(db) == DBHookElems(db') && (InjectsDBHook(db) <==> InjectsDBHook(db'))
  {
  }

  /** Equal trees agree on everything but the hooks, and on the list of hooks. */
  lemma TreeDetermines(spec: Dhcp4Spec, creds: Credentials, override: string,
                       spec': Dhcp4Spec, creds': Credentials, override': string)
    requires RootTree(spec, creds, override) == RootTree(spec', creds', override')
    ensures Norm(Bare(spec), creds, override) == Norm(Bare(spec'), creds', override')
    ensures HookElems(spec, override) == HookElems(spec', override')
    ensures DBHookElems(spec.leaseDatabase) == DBHookElems(spec'.leaseDatabase)
    ensures InjectsDBHook(spec.leaseDatabase) <==> InjectsDBHook(spec'.leaseDatabase)
    ensures spec.controlSocket == spec'.controlSocket
  {
    BareShared(spec, creds);
    BareShared(spec', creds');
    HooksSplit(Shared(spec, creds), HookElems(spec, override), Shared(spec', creds'), HookElems(spec', override'));
    LeaseDatabase(spec, creds);
    LeaseDatabase(spec', creds');
    SameDBHook(spec.leaseDatabase, spec'.leaseDatabase);
    BareHooks(spec, override);
    BareHooks(spec', override');
    RenderInjective(Bare(spec), creds, override, Bare(spec'), creds', override');
    assert Norm(Bare(spec), creds, override).spec.controlSocket == spec.controlSocket;
  }

  lemma BareHooks(spec: Dhcp4Spec, override: string)
    ensures HookElems(Bare(spec), override) == DBHookElems(spec.leaseDatabase)
    ensures Unambiguous(Bare(spec))
  {
    assert MapSeq(HookTree, Bare(spec).hooksLibraries) == [];
  }

  lemma NormOfBare(spec: Dhcp4Spec, creds: Credentials, override: string)
    ensures Norm(spec, creds, override) ==
            View(Norm(Bare(spec), creds, override).spec.(hooksLibraries := MapSeq(NormHook, spec.hooksLibraries),
                                                         highAvailability := NormOptHA(spec.highAvailability, override)),
                 Norm(Bare(spec), creds, override).creds)
  {
  }

  // ---------- lists of hooks ----------

  lemma HookTreeDetermines(h: HookLibrary, h': HookLibrary)
    ensures HookTree(h) == HookTree(h') <==> NormHook(h) == NormHook(h')
  {
    HookRoundTrip(h);
    HookRoundTrip(h');
  }

  lemma SameUserHooks(hooks: seq<HookLibrary>, hooks': seq<HookLibrary>)
    requires MapSeq(HookTree, hooks) == MapSeq(HookTree, hooks')
    ensures MapSeq(NormHook, hooks) == MapSeq(NormHook, hooks')
  {
    forall i | 0 <= i < |hooks| ensures NormHook(hooks[i]) == NormHook(hooks'[i]) {
      assert MapSeq(HookTree, hooks)[i] == MapSeq(HookTree, hooks')[i];
      HookTreeDetermines(hooks[i], hooks'[i]);
    }
  }

  lemma SplitEnds<X>(a: seq<X>, d: seq<X>, x: seq<X>, b: seq<X>, y: seq<X>)
    requires a + d + x == b + d + y && |x| == |y|
    ensures a == b && x == y
  {
    assert |a| == |b|;
    assert a == (a + d + x)[..|a|] && b == (b + d + y)[..|b|];
    assert x == (a + d + x)[|a + d|..] && y == (b + d + y)[|b + d|..];
  }

  /** Resources that both ask for high availability, or both do not, are told apart. */
  lemma SameKindNotConfused(spec: Dhcp4Spec, creds: Credentials, override: string,
                            spec': Dhcp4Spec, creds': Credentials, override': string)
    requires spec.highAvailability.Some? <==> spec'.highAvailability.Some?
    ensures !Confused(spec, creds, override, spec', creds', override')
  {
    if RootTree(spec, creds, override) == RootTree(spec', creds', override') {
      TreeDetermines(spec, creds, override, spec', creds', override');
      NormOfBare(spec, creds, override);
      NormOfBare(spec', creds', override');
      var port, port' := HAPort(spec.controlSocket), HAPort(spec'.controlSocket);
      var x := HAHookElems(spec.highAvailability, override, port);
      var y := HAHookElems(spec'.highAvailability, override', port');
      SplitEnds(MapSeq(HookTree, spec.hooksLibraries), DBHookElems(spec.leaseDatabase), x,
                MapSeq(HookTree, spec'.hooksLibraries), y);
      SameUserHooks(spec.hooksLibraries, spec'.hooksLibraries);
      if spec.highAvailability.Some? {
        var ha, ha' := spec.highAvailability.value, spec'.highAvailability.value;
        SameInjected(ha, EffectiveName(ha, override), port, ha', EffectiveName(ha', override'), port');
      }
    }
  }

  lemma ParametersDetermine(tree: Json, tree': Json)
    requires HAParameters(tree) == HAParameters(tree')
    ensures tree == tree'
  {
    assert ElemsOf(Lookup(Of(HAParameters(tree)), HIGH_AVAILABILITY)) == [tree];
    assert ElemsOf(Lookup(Of(HAParameters(tree')), HIGH_AVAILABILITY)) == [tree'];
  }

  lemma SameInjected(ha: HAConfig, name: string, port: int, ha': HAConfig, name': string, port': int)
    requires HookTree(InjectedHook(ha, name, port)) == HookTree(InjectedHook(ha', name', port'))
    ensures NormHA(ha, name) == NormHA(ha', name')
  {
    HookTreeDetermines(InjectedHook(ha, name, port), InjectedHook(ha', name', port'));
    ParametersDetermine(HATree(ha, name, port), HATree(ha', name', port'));
    HARoundTrip(ha, name, port);
    HARoundTrip(ha', name', port');
  }

  // ---------- one with and one without high availability ----------

  lemma ThreadsRenderedAgain(t: Option<HAMultiThreading>)
    ensures HAThreadsTree(NormHAThreads(t)) == HAThreadsTree(t)
  {
  }

  lemma PeersRenderedAgain(ps: seq<HAPeer>)
    ensures PeerTrees(MapSeq(NormPeer, ps)) == PeerTrees(ps)
  {
    assert MapSeq(PeerTree, MapSeq(NormPeer, ps)) == MapSeq(PeerTree, ps);
  }

  /** Rendering the settings read from a tree gives the tree. */
  lemma RenderedAgain(ha: HAConfig, name: string, port: int)
    ensures HATree(NormHA(ha, name), name, port) == HATree(ha, name, port)
  {
    ThreadsRenderedAgain(ha.multiThreading);
    PeersRenderedAgain(ha.peers);
  }

  lemma SettingsOfInjected(ha: HAConfig, name: string, port: int)
    ensures SettingsIn(InjectedHook(ha, name, port)) == NormHA(ha, name)
    ensures InjectedHook(NormHA(ha, name), name, port) == InjectedHook(ha, name, port)
  {
    var tree := HATree(ha, name, port);
    assert ElemsOf(Lookup(Of(HAParameters(tree)), HIGH_AVAILABILITY)) == [tree];
    HARoundTrip(ha, name, port);
    RenderedAgain(ha, name, port);
  }

  lemma InjectedIsParsed(h: HookLibrary, ha: HAConfig, name: string, port: int)
    requires HookTree(h) == HookTree(InjectedHook(ha, name, port))
    ensures h == InjectedHook(ha, name, port)
  {
    HookTreeDetermines(h, InjectedHook(ha, name, port));
  }

  lemma LeaseHookOf(h: HookLibrary)
    requires HookTree(h) == HookTree(HookLibrary(LEASE_CMDS_LIBRARY, NoParameters))
    ensures h.library == LEASE_CMDS_LIBRARY && !h.parameters.Parsed?
  {
    HookTreeDetermines(h, HookLibrary(LEASE_CMDS_LIBRARY, NoParameters));
  }

  lemma LastOf(a: seq<Json>, d: seq<Json>)
    ensures |d| == 1 ==> (a + d)[|a + d| - 1] == d[0]
  {
  }

  /** No database hook can end the list of a resource with high availability. */
  lemma NoDBHookAtEnd(user: seq<Json>, db: Option<DatabaseConfig>, user': seq<Json>, lease: Json, ha: Json)
    requires user + DBHookElems(db) == user' + [lease, ha] && DecodeHook(ha).library == HA_LIBRARY
    ensures !InjectsDBHook(db) && user == user' + [lease, ha]
  {
    DBHookShape(db);
    LastOf(user, DBHookElems(db));
    assert (user' + [lease, ha])[|user' + [lease, ha]| - 1] == ha;
    assert !InjectsDBHook(db) ==> DBHookElems(db) == [] && user + [] == user;
  }

  lemma HooksOf(spec: Dhcp4Spec, override: string)
    ensures var user := MapSeq(HookTree, spec.hooksLibraries) + DBHookElems(spec.leaseDatabase);
            HookElems(spec, override) ==
            match spec.highAvailability
            case None => user
            case Some(ha) =>
              user + [HookTree(HookLibrary(LEASE_CMDS_LIBRARY, NoParameters)),
                      HookTree(InjectedHook(ha, EffectiveName(ha, override), HAPort(spec.controlSocket)))]
  {
    var user := MapSeq(HookTree, spec.hooksLibraries) + DBHookElems(spec.leaseDatabase);
    assert user + [] == user;
  }

  /** If two resources are confused and one does not ask for high availability, that one imitates. */
  lemma ConfusedImitates(spec: Dhcp4Spec, creds: Credentials, override: string,
                         spec': Dhcp4Spec, creds': Credentials, override': string)
    requires RootTree(spec, creds, override) == RootTree(spec', creds', override')
    requires spec.highAvailability.None? && spec'.highAvailability.Some?
    ensures Imitates(spec) && !InjectsDBHook(spec'.leaseDatabase)
  {
    TreeDetermines(spec, creds, override, spec', creds', override');
    HooksOf(spec, override);
    HooksOf(spec', override');
    var ha, port := spec'.highAvailability.value, HAPort(spec'.controlSocket);
    var name := EffectiveName(ha, override');
    LibraryOf(InjectedHook(ha, name, port));
    var user' := MapSeq(HookTree, spec'.hooksLibraries) + DBHookElems(spec'.leaseDatabase);
    NoDBHookAtEnd(MapSeq(HookTree, spec.hooksLibraries), spec.leaseDatabase, user',
                  HookTree(HookLibrary(LEASE_CMDS_LIBRARY, NoParameters)), HookTree(InjectedHook(ha, name, port)));
    EndsInjected(spec.hooksLibraries, user', ha, name, port);
  }

  lemma EndsInjected(hooks: seq<HookLibrary>, user: seq<Json>, ha: HAConfig, name: string, port: int)
    requires MapSeq(HookTree, hooks) ==
             user + [HookTree(HookLibrary(LEASE_CMDS_LIBRARY, NoParameters)), HookTree(InjectedHook(ha, name, port))]
    ensures |hooks| >= 2
    ensures hooks[|hooks| - 2].library == LEASE_CMDS_LIBRARY && !hooks[|hooks| - 2].parameters.Parsed?
    ensures var h := hooks[|hooks| - 1]; h == InjectedHook(SettingsIn(h), SettingsIn(h).thisServerName, port)
  {
    var n, trees := |hooks|, MapSeq(HookTree, hooks);
    assert trees[n - 1] == HookTree(hooks[n - 1]) && trees[n - 2] == HookTree(hooks[n - 2]);
    LeaseHookOf(hooks[n - 2]);
    InjectedIsParsed(hooks[n - 1], ha, name, port);
    SettingsOfInjected(ha, name, port);
  }

  /** The resource that asks for what an imitation spells out. */
  function Imitated(spec: Dhcp4Spec): Dhcp4Spec
    requires Imitates(spec)
  {
    var n := |spec.hooksLibraries|;
    spec.(highAvailability := Some(SettingsIn(spec.hooksLibraries[n - 1])), hooksLibraries := spec.hooksLibraries[..n - 2])
  }

  lemma ImitatedRendersEqually(spec: Dhcp4Spec, creds: Credentials, override: string)
    requires Imitates(spec)
    ensures Confused(spec, creds, override, Imitated(spec), creds, "")
  {
    ImitatedShared(spec, creds);
    ImitatedHookElems(spec, override);
    NormOfHA(spec, creds, override);
    NormOfHA(Imitated(spec), creds, "");
  }

  lemma ImitatedShared(spec: Dhcp4Spec, creds: Credentials)
    requires Imitates(spec)
    ensures Shared(Imitated(spec), creds) == Shared(spec, creds)
  {
    SharedIgnoresHooks(spec, Imitated(spec));
  }

  lemma ImitatedHookElems(spec: Dhcp4Spec, override: string)
    requires Imitates(spec)
    ensures HookElems(Imitated(spec), "") == HookElems(spec, override)
  {
    HooksOf(spec, override);
    HooksOf(Imitated(spec), "");
    var hooks := spec.hooksLibraries;
    ImitatedHooks(hooks, SettingsIn(hooks[|hooks| - 1]), HAPort(spec.controlSocket), spec.leaseDatabase);
  }

  lemma ImitatedHooks(hooks: seq<HookLibrary>, ha: HAConfig, port: int, db: Option<DatabaseConfig>)
    requires |hooks| >= 2 && hooks[|hooks| - 1] == InjectedHook(ha, ha.thisServerName, port) && !InjectsDBHook(db)
    requires hooks[|hooks| - 2].library == LEASE_CMDS_LIBRARY && !hooks[|hooks| - 2].parameters.Parsed?
    ensures MapSeq(HookTree, hooks) + DBHookElems(db) ==
            MapSeq(HookTree, hooks[..|hooks| - 2]) + DBHookElems(db)
            + [HookTree(HookLibrary(LEASE_CMDS_LIBRARY, NoParameters)), HookTree(InjectedHook(ha, EffectiveName(ha, ""), port))]
  {
    HookTreeDetermines(hooks[|hooks| - 2], HookLibrary(LEASE_CMDS_LIBRARY, NoParameters));
    SplitLastTwo(MapSeq(HookTree, hooks), MapSeq(HookTree, hooks[..|hooks| - 2]), DBHookElems(db));
  }

  lemma SplitLastTwo(all: seq<Json>, front: seq<Json>, none: seq<Json>)
    requires |all| == |front| + 2 && all[..|front|] == front && none == []
    ensures all + none == front + none + [all[|all| - 2], all[|all| - 1]]
  {
  }

  lemma HAIsAmbiguous(spec: Dhcp4Spec, creds: Credentials, override: string)
    requires spec.highAvailability.Some? && !InjectsDBHook(spec.leaseDatabase)
    ensures Ambiguous(spec, creds, override)
  {
    ImitationRendersEqually(spec, creds, override);
    assert Confused(spec, creds, override, Imitation(spec, override), creds, override);
  }

  lemma ImitationIsAmbiguous(spec: Dhcp4Spec, creds: Credentials, override: string)
    requires Imitates(spec)
    ensures Ambiguous(spec, creds, override)
  {
    ImitatedRendersEqually(spec, creds, override);
  }

  lemma ConfusedDiffer(spec: Dhcp4Spec, creds: Credentials, override: string,
                       spec': Dhcp4Spec, creds': Credentials, override': string)
    ensures Confused(spec, creds, override, spec', creds', override') ==>
              (spec.highAvailability.Some? <==> spec'.highAvailability.None?)
  {
    if spec.highAvailability.Some? <==> spec'.highAvailability.Some? {
      SameKindNotConfused(spec, creds, override, spec', creds', override');
    }
  }

  lemma ConfusedOnlyIf(spec: Dhcp4Spec, creds: Credentials, override: string,
                       spec': Dhcp4Spec, creds': Credentials, override': string)
    requires Confused(spec, creds, override, spec', creds', override')
    ensures (spec.highAvailability.Some? && !InjectsDBHook(spec.leaseDatabase)) || Imitates(spec)
  {
    ConfusedDiffer(spec, creds, override, spec', creds', override');
    if spec.highAvailability.Some? {
      ConfusedImitates(spec', creds', override', spec, creds, override);
    } else {
      ConfusedImitates(spec, creds, override, spec', creds', override');
    }
  }

  /**
   * Another resource that Kea sees differently renders to the same tree exactly when this one
   * asks for high availability and injects no database hook, or spells such a request out.
   */
  lemma AmbiguousExactly(spec: Dhcp4Spec, creds: Credentials, override: string)
    ensures Ambiguous(spec, creds, override) <==>
              (spec.highAvailability.Some? && !InjectsDBHook(spec.leaseDatabase)) || Imitates(spec)
  {
    if spec.highAvailability.Some? && !InjectsDBHook(spec.leaseDatabase) {
      HAIsAmbiguous(spec, creds, override);
    }
    if Imitates(spec) {
      ImitationIsAmbiguous(spec, creds, override);
    }
    forall spec', creds', override' | Confused(spec, creds, override, spec', creds', override')
      ensures (spec.highAvailability.Some? && !InjectsDBHook(spec.leaseDatabase)) || Imitates(spec)
    {
      ConfusedOnlyIf(spec, creds, override, spec', creds', override');
    }
  }
}
