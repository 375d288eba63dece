/**
 * The configuration fetcher and the main loop as two interleaved processes over two shared cells.
 * The fetcher stores the configuration and the instance metadata separately; the loop reads them separately.
 */
module AgentProtocol {
  import opened Text
  import opened ConfigVersions
  import opened AgentLoop

  /** The instance part of a response, versions still as text. */
  datatype Instance = Instance(
    id: Option<string>, configVersion: string, networkConfigVersion: string, extensionServiceVersion: string)

  datatype Reply = Fetched(conf: Conf, instance: Option<Instance>) | NotFound | FetchFailed

  /** What a reply does to the metadata cell. */
  datatype MetaStore = Keep | Put(meta: Option<Metadata>)

  /** `instance_metadata_from_instance`; an instance that cannot be converted leaves the cell alone. */
  function MetadataFromInstance(instance: Option<Instance>): MetaStore {
    match instance
    case None => Put(None)
    case Some(i) =>
      if i.id.None? then Keep
      else match (Parse(i.configVersion), Parse(i.networkConfigVersion), Parse(i.extensionServiceVersion))
        case (Some(config), Some(network), Some(extension)) => Put(Some(Metadata(config, network, extension)))
        case _ => Keep
  }

  /** An instance that has an id and three readable versions. */
  predicate Convertible(i: Instance) {
    && i.id.Some? && Parse(i.configVersion).Some?
    && Parse(i.networkConfigVersion).Some? && Parse(i.extensionServiceVersion).Some?
  }

  /** Each version of the metadata is the instance's own text of that version, read. */
  predicate IsReadFrom(meta: Metadata, i: Instance) {
    && i.id.Some?
    && Parse(i.configVersion) == Some(meta.configVersion)
    && Parse(i.networkConfigVersion) == Some(meta.networkConfigVersion)
    && Parse(i.extensionServiceVersion) == Some(meta.extensionServiceVersion)
  }

  function MetaStoreOf(r: Reply): MetaStore {
    match r
    case Fetched(_, instance) => MetadataFromInstance(instance)
    case NotFound => Put(None)
    case FetchFailed => Keep
  }

  /** The two cells, as `single_fetch` updates them when nothing runs in between. */
  class FetcherState {
    var netconf: Option<Conf>
    var instmeta: Option<Metadata>

    constructor ()
      ensures netconf == None && instmeta == None
    {
      netconf, instmeta := None, None;
    }

    method SingleFetch(cancelled: bool, reply: Reply) returns (continues: bool)
      modifies this
      ensures continues == !cancelled
      ensures var s := Sys(old(netconf), old(instmeta));
        var s' := if cancelled then s else Step(Step(Step(s, Answer(reply)), StoreConf), StoreMeta);
        netconf == s'.netconf && instmeta == s'.instmeta
      ensures cancelled || reply == FetchFailed ==> netconf == old(netconf) && instmeta == old(instmeta)
      ensures !cancelled && reply == NotFound ==> netconf == None && instmeta == None
      ensures !cancelled && reply.Fetched? ==>
        && netconf == Some(reply.conf)
        && match reply.instance
           case None => instmeta == None
           case Some(i) =>
             if Convertible(i) then instmeta.Some? && IsReadFrom(instmeta.value, i) else instmeta == old(instmeta)
    {
      if cancelled {
        return false;
      }
      match reply {
        case Fetched(conf, instance) =>
          netconf := Some(conf);
          match MetadataFromInstance(instance) {
            case Put(meta) => instmeta := meta;
            case Keep =>
          }
        case NotFound =>
          netconf := None;
          instmeta := None;
        case FetchFailed =>
      }
      return true;
    }
  }

  datatype Fetcher = Waiting | Replied(reply: Reply) | HalfStored(store: MetaStore)

  /** Where the main loop is in its iteration, and what it has read; `confAt` and `metaAt` say from which reply. */
  datatype Agent =
    | Between
    | HasConf(conf: Conf, confAt: nat)
    | HasBoth(conf: Conf, confAt: nat, meta: Option<Metadata>, metaAt: nat)
    | Exited

  /** One acknowledgement, and the replies its two sources came from. */
  datatype Ack = Ack(
    networkVersion: string, instanceVersion: Option<string>,
    conf: Conf, confAt: nat, meta: Option<Metadata>, metaAt: nat)

  /**
   * The shared cells, both processes and three histories: the replies received, the iterations since the last restart,
   * and all acknowledgements of an applied configuration. `confAt` and `metaAt` name the reply each cell was stored
   * from.
   */
  datatype System = System(
    options: Options,
    netconf: Option<Conf>, confAt: nat, instmeta: Option<Metadata>, metaAt: nat,
    fetcher: Fetcher, agent: Agent, loop: Loop,
    replies: seq<Reply>, log: seq<Event>, acks: seq<Ack>)

  function Init(options: Options): System {
    System(options, None, 0, None, 0, Waiting, Between, START, [], [], [])
  }

  ghost function Sys(netconf: Option<Conf>, instmeta: Option<Metadata>): System {
    Init(Options(ContainerExec, true)).(netconf := netconf, instmeta := instmeta)
  }

  /** The atomic steps. `Restart` ends the agent process at any moment and starts it afresh. */
  datatype Action =
    | Answer(reply: Reply) | StoreConf | StoreMeta
    | ReadConf(blankEnv: Env) | ReadMeta | Finish(env: Env)
    | Restart

  function Iterated(s: System, conf: Option<Conf>, meta: Option<Metadata>, env: Env): System {
    var e := IterationEvent(s.loop, s.options, conf, meta, env);
    s.(loop := AfterEvent(s.loop, e), log := s.log + [e], agent := if Halts(e, env) then Exited else Between)
  }

  /** A step that is not enabled changes nothing. */
  function Step(s: System, a: Action): System {
    match a
    case Answer(reply) =>
      if s.fetcher != Waiting then s else s.(fetcher := Replied(reply), replies := s.replies + [reply])
    case StoreConf =>
      (match s.fetcher
       case Replied(Fetched(conf, instance)) =>
         s.(netconf := Some(conf), confAt := if |s.replies| > 0 then |s.replies| - 1 else 0,
            fetcher := HalfStored(MetadataFromInstance(instance)))
       case Replied(NotFound) => s.(netconf := None, fetcher := HalfStored(Put(None)))
       case Replied(FetchFailed) => s.(fetcher := Waiting)
       case _ => s)
    case StoreMeta =>
      (match s.fetcher
       case HalfStored(Put(meta)) =>
         s.(instmeta := meta, metaAt := if |s.replies| > 0 then |s.replies| - 1 else 0, fetcher := Waiting)
       case HalfStored(Keep) => s.(fetcher := Waiting)
       case _ => s)
    case ReadConf(env) =>
      if s.agent != Between then s
      else if s.netconf.Some? then s.(agent := HasConf(s.netconf.value, s.confAt))
      else Iterated(s, None, None, env)
    case ReadMeta =>
      if s.agent.HasConf? then s.(agent := HasBoth(s.agent.conf, s.agent.confAt, s.instmeta, s.metaAt)) else s
    case Finish(env) =>
      if !s.agent.HasBoth? then s
      else
        var s' := Iterated(s, Some(s.agent.conf), s.agent.meta, env);
        var e := s'.log[|s.log|];
        if e.Reported? && e.status.networkConfigVersion.Some?
        then s'.(acks := s.acks + [Ack(e.status.networkConfigVersion.value, e.status.instanceNetworkConfigVersion,
                                       s.agent.conf, s.agent.confAt, s.agent.meta, s.agent.metaAt)])
        else s'
    case Restart =>
      s.(netconf := None, instmeta := None, fetcher := Waiting, agent := Between, loop := START, log := [])
  }

  function Exec(s: System, actions: seq<Action>): System {
    if actions == [] then s else Step(Exec(s, actions[..|actions| - 1]), actions[|actions| - 1])
  }

  // ---------------------------------------------------------------- invariants

  predicate IsConfOf(s: System, conf: Conf, at: nat) {
    at < |s.replies| && s.replies[at].Fetched? && s.replies[at].conf == conf
  }

  predicate IsMetaOf(s: System, meta: Metadata, at: nat) {
    at < |s.replies| && s.replies[at].Fetched? && s.replies[at].instance.Some?
    && IsReadFrom(meta, s.replies[at].instance.value)
  }

  /** What a reply does to the metadata cell, in terms of its texts. */
  lemma MetaStoreMeans(r: Reply)
    ensures match MetaStoreOf(r)
      case Put(Some(meta)) => r.Fetched? && r.instance.Some? && IsReadFrom(meta, r.instance.value)
      case Put(None) => r == NotFound || (r.Fetched? && r.instance.None?)
      case Keep => r == FetchFailed || (r.Fetched? && r.instance.Some? && !Convertible(r.instance.value))
  {
  }

  /** The earliest reply whose metadata may still be read once this version is acknowledged. */
  function MetaFloor(a: Ack): nat {
    if a.meta.Some? then a.metaAt else a.confAt
  }

  predicate CellsAreSourced(s: System) {
    && (s.netconf.Some? ==> IsConfOf(s, s.netconf.value, s.confAt))
    && (s.instmeta.Some? ==> IsMetaOf(s, s.instmeta.value, s.metaAt))
    && (s.fetcher.Replied? ==> s.replies != [] && s.replies[|s.replies| - 1] == s.fetcher.reply)
    && (s.fetcher.HalfStored? ==> s.replies != [] && MetaStoreOf(s.replies[|s.replies| - 1]) == s.fetcher.store)
  }

  /** What the loop has read comes from replies no later than those the cells hold now. */
  predicate ReadsAreSourced(s: System) {
    && (s.agent.HasConf? || s.agent.HasBoth? ==>
          && IsConfOf(s, s.agent.conf, s.agent.confAt)
          && (s.netconf.Some? ==> s.agent.confAt <= s.confAt))
    && (s.agent.HasBoth? ==>
          && (s.agent.meta.Some? ==> IsMetaOf(s, s.agent.meta.value, s.agent.metaAt))
          && (s.instmeta.Some? ==> (if s.agent.meta.Some? then s.agent.metaAt else s.agent.confAt) <= s.metaAt))
  }

  predicate AckIsSourced(s: System, a: Ack) {
    && IsConfOf(s, a.conf, a.confAt)
    && (a.meta.Some? ==> IsMetaOf(s, a.meta.value, a.metaAt))
    && a.networkVersion == a.conf.managedHostConfigVersion
    && a.instanceVersion == AckedInstanceNetworkVersion(a.conf, a.meta)
  }

  /** Nothing that can still be read is older than what an acknowledgement was based on. */
  predicate AckIsBehind(s: System, a: Ack) {
    && (s.netconf.Some? ==> a.confAt <= s.confAt)
    && (s.instmeta.Some? ==> MetaFloor(a) <= s.metaAt)
    && (s.agent.HasConf? || s.agent.HasBoth? ==> a.confAt <= s.agent.confAt)
    && (s.agent.HasBoth? && s.agent.meta.Some? ==> MetaFloor(a) <= s.agent.metaAt)
  }

  predicate Follows(a: Ack, b: Ack) {
    a.confAt <= b.confAt && (b.meta.Some? ==> MetaFloor(a) <= b.metaAt)
  }

  predicate Inv(s: System) {
    && CellsAreSourced(s)
    && ReadsAreSourced(s)
    && (forall i :: 0 <= i < |s.acks| ==> AckIsSourced(s, s.acks[i]) && AckIsBehind(s, s.acks[i]))
    && (forall i, j :: 0 <= i < j < |s.acks| ==> Follows(s.acks[i], s.acks[j]))
  }

  lemma SourcedStaysSourced(s: System, s': System, a: Ack)
    requires AckIsSourced(s, a) && s.replies <= s'.replies
    ensures AckIsSourced(s', a)
  {
  }

  lemma AnswerKeepsInv(s: System, a: Action)
    requires Inv(s) && a.Answer?
    ensures Inv(Step(s, a))
  {
    hide MetaStoreOf, IsReadFrom, AckIsSourced;
    var s' := Step(s, a);
    assert s.replies <= s'.replies;
    forall i | 0 <= i < |s'.acks|
      ensures AckIsSourced(s', s'.acks[i]) && AckIsBehind(s', s'.acks[i])
    {
      assert AckIsSourced(s, s.acks[i]) && AckIsBehind(s, s.acks[i]);
      SourcedStaysSourced(s, s', s.acks[i]);
    }
  }

  lemma StoreKeepsInv(s: System, a: Action)
    requires Inv(s) && (a.StoreConf? || a.StoreMeta?)
    ensures Inv(Step(s, a))
  {
    hide MetadataFromInstance, AckedInstanceNetworkVersion, IsReadFrom;
    var s' := Step(s, a);
    if s.replies != [] {
      MetaStoreMeans(s.replies[|s.replies| - 1]);
    }
    assert s'.replies == s.replies && s'.agent == s.agent && s'.acks == s.acks;
    assert CellsAreSourced(s') && ReadsAreSourced(s');
    forall i | 0 <= i < |s'.acks|
      ensures AckIsSourced(s', s'.acks[i]) && AckIsBehind(s', s'.acks[i])
    {
      assert AckIsSourced(s, s.acks[i]) && AckIsBehind(s, s.acks[i]);
    }
  }

  lemma ReadKeepsInv(s: System, a: Action)
    requires Inv(s) && (a.ReadConf? || a.ReadMeta? || a.Restart?)
    ensures Inv(Step(s, a))
  {
    hide MetaStoreOf, IsReadFrom, AckedInstanceNetworkVersion, IterationEvent, AfterEvent, Halts;
    var s' := Step(s, a);
    assert s'.replies == s.replies && s'.acks == s.acks;
    forall i | 0 <= i < |s.acks|
      ensures AckIsSourced(s', s.acks[i]) && AckIsBehind(s', s.acks[i])
    {
      assert AckIsSourced(s, s.acks[i]) && AckIsBehind(s, s.acks[i]);
    }
  }

  lemma ReportedVersion(l: Loop, options: Options, conf: Conf, meta: Option<Metadata>, env: Env)
    ensures var e := IterationEvent(l, options, Some(conf), meta, env);
      e.Reported? && e.status.networkConfigVersion.Some? ==>
      && e.status.networkConfigVersion.value == conf.managedHostConfigVersion
      && e.status.instanceNetworkConfigVersion == AckedInstanceNetworkVersion(conf, meta)
  {
  }

  lemma FinishKeepsInv(s: System, a: Action)
    requires Inv(s) && a.Finish?
    ensures Inv(Step(s, a))
  {
    hide MetaStoreOf, IsReadFrom, AckedInstanceNetworkVersion, IterationEvent, AfterEvent, Halts;
    var s' := Step(s, a);
    if s.agent.HasBoth? {
      ReportedVersion(s.loop, s.options, s.agent.conf, s.agent.meta, a.env);
      assert s'.replies == s.replies && (s'.agent == Exited || s'.agent == Between) && s.acks <= s'.acks;
      forall i | 0 <= i < |s'.acks|
        ensures AckIsSourced(s', s'.acks[i]) && AckIsBehind(s', s'.acks[i])
      {
        if i < |s.acks| {
          assert AckIsSourced(s, s.acks[i]) && AckIsBehind(s, s.acks[i]);
        }
      }
      forall i, j | 0 <= i < j < |s'.acks|
        ensures Follows(s'.acks[i], s'.acks[j])
      {
        assert AckIsBehind(s, s.acks[i]);
      }
    }
  }

  lemma {:induction false} ReachableInv(options: Options, actions: seq<Action>)
    ensures Inv(Exec(Init(options), actions))
  {
    if actions != [] {
      ReachableInv(options, actions[..|actions| - 1]);
      var s, a := Exec(Init(options), actions[..|actions| - 1]), actions[|actions| - 1];
      if a.Answer? {
        AnswerKeepsInv(s, a);
      } else if a.StoreConf? || a.StoreMeta? {
        StoreKeepsInv(s, a);
      } else if a.Finish? {
        FinishKeepsInv(s, a);
      } else {
        ReadKeepsInv(s, a);
      }
    }
  }

  // ---------------------------------------------------------------- theorems over every interleaving

  /**
   * In every interleaving, with restarts at any moment, configurations are acknowledged in the order in which the
   * server sent them, under the version it sent.
   */
  lemma AcksFollowReplies(options: Options, actions: seq<Action>, i: nat, j: nat)
    requires i < j < |Exec(Init(options), actions).acks|
    ensures var s := Exec(Init(options), actions); var a, b := s.acks[i], s.acks[j];
      && a.confAt <= b.confAt < |s.replies| && s.replies[a.confAt].Fetched? && s.replies[b.confAt].Fetched?
      && a.networkVersion == s.replies[a.confAt].conf.managedHostConfigVersion
      && b.networkVersion == s.replies[b.confAt].conf.managedHostConfigVersion
  {
    ReachableInv(options, actions);
    hide Exec;
    var s := Exec(Init(options), actions);
    assert AckIsSourced(s, s.acks[i]) && AckIsSourced(s, s.acks[j]) && Follows(s.acks[i], s.acks[j]);
  }

  /**
   * In every interleaving the metadata in the cell, and any that an acknowledgement is based on, has as its three
   * versions the three texts of one instance that the server sent; the configuration likewise is one that it sent.
   */
  lemma CopiesAreTheServers(options: Options, actions: seq<Action>)
    ensures var s := Exec(Init(options), actions);
      && (s.netconf.Some? ==> IsConfOf(s, s.netconf.value, s.confAt))
      && (s.instmeta.Some? ==> IsMetaOf(s, s.instmeta.value, s.metaAt))
      && (forall i :: 0 <= i < |s.acks| ==>
            && IsConfOf(s, s.acks[i].conf, s.acks[i].confAt)
            && (s.acks[i].meta.Some? ==> IsMetaOf(s, s.acks[i].meta.value, s.acks[i].metaAt)))
  {
    ReachableInv(options, actions);
    hide Exec;
    var s := Exec(Init(options), actions);
    forall i | 0 <= i < |s.acks|
      ensures IsConfOf(s, s.acks[i].conf, s.acks[i].confAt)
      ensures s.acks[i].meta.Some? ==> IsMetaOf(s, s.acks[i].meta.value, s.acks[i].metaAt)
    {
      assert AckIsSourced(s, s.acks[i]);
    }
  }

  /**
   * In every interleaving each acknowledged instance network version was computed from a configuration and (if present)
   * a metadata copy that the server sent; if readable, it is no newer than either.
   */
  lemma AcksAreNeverAhead(options: Options, actions: seq<Action>, i: nat)
    requires i < |Exec(Init(options), actions).acks|
    ensures var s := Exec(Init(options), actions);
      AckIsSourced(s, s.acks[i]) && IsBounded(s.acks[i])
  {
    ReachableInv(options, actions);
    hide Exec;
    var s := Exec(Init(options), actions);
    AckIsBounded(s, s.acks[i]);
  }

  /**
   * The acknowledged instance version is the configured text if that is unreadable, else readable and at most each
   * copy.
   */
  predicate IsBounded(a: Ack) {
    a.instanceVersion.Some? ==>
      var text, configured := a.instanceVersion.value, Parse(a.conf.instanceNetworkConfigVersion);
      && (configured.None? || a.meta.None? ==> text == a.conf.instanceNetworkConfigVersion)
      && (configured.Some? ==>
            && Parse(text).Some?
            && AtMost(Parse(text).value, configured.value)
            && (a.meta.Some? ==> AtMost(Parse(text).value, a.meta.value.networkConfigVersion))
            && (Parse(text).value == configured.value ||
                 (a.meta.Some? && Parse(text).value == a.meta.value.networkConfigVersion)))
  }

  lemma SourcedMetaIsRepresentable(s: System, meta: Metadata, at: nat)
    requires IsMetaOf(s, meta, at)
    ensures Representable(meta.networkConfigVersion)
  {
    var r := s.replies[at];
    ParsedIsRepresentable(r.instance.value.networkConfigVersion);
  }

  lemma AckIsBounded(s: System, a: Ack)
    requires AckIsSourced(s, a)
    ensures IsBounded(a)
  {
    hide Parse, VersionString, AtMost;
    if a.meta.Some? {
      SourcedMetaIsRepresentable(s, a.meta.value, a.metaAt);
    }
    if a.instanceVersion.Some? && Parse(a.conf.instanceNetworkConfigVersion).Some? {
      AckIsNeverAhead(a.conf, a.meta);
    }
  }

  /** The configured version of a reply: present unless the configuration carries none. */
  function ConfVersion(r: Reply): Option<ConfigVersion> {
    if r.Fetched? && r.conf.instanceNetworkConfigVersion != "" then Parse(r.conf.instanceNetworkConfigVersion) else None
  }

  /** The metadata copy of the version, for replies that store one. */
  function MetaVersion(r: Reply): Option<ConfigVersion> {
    if r.Fetched? && r.instance.Some? && Convertible(r.instance.value)
    then Parse(r.instance.value.networkConfigVersion) else None
  }

  predicate AtMostIfPresent(a: Option<ConfigVersion>, b: Option<ConfigVersion>) {
    a.Some? && b.Some? ==> AtMost(a.value, b.value)
  }

  /**
   * The server never goes back: over the replies in order, neither copy of the version decreases, and no metadata
   * copy is older than the configured version of the same or an earlier reply (copies that match qualify).
   * Present versions are readable.
   */
  predicate ServerMovesForward(replies: seq<Reply>) {
    && (forall i :: 0 <= i < |replies| && replies[i].Fetched? && replies[i].conf.instanceNetworkConfigVersion != "" ==>
          Parse(replies[i].conf.instanceNetworkConfigVersion).Some?)
    && (forall i, j :: 0 <= i <= j < |replies| ==>
          && AtMostIfPresent(ConfVersion(replies[i]), ConfVersion(replies[j]))
          && AtMostIfPresent(MetaVersion(replies[i]), MetaVersion(replies[j]))
          && AtMostIfPresent(ConfVersion(replies[i]), MetaVersion(replies[j])))
  }

  /** A server whose replies carry matching copies and whose configured version never decreases moves forward. */
  lemma MatchingCopiesMoveForward(replies: seq<Reply>)
    requires forall i |
      0 <= i < |replies| && replies[i].Fetched? && replies[i].conf.instanceNetworkConfigVersion != "" ::
      Parse(replies[i].conf.instanceNetworkConfigVersion).Some?
    requires forall i :: 0 <= i < |replies| && MetaVersion(replies[i]).Some? ==>
      ConfVersion(replies[i]) == MetaVersion(replies[i])
    requires forall i, j :: 0 <= i <= j < |replies| ==>
      AtMostIfPresent(ConfVersion(replies[i]), ConfVersion(replies[j]))
    ensures ServerMovesForward(replies)
  {
    hide Parse, AtMost;
    forall i, j | 0 <= i <= j < |replies|
      ensures AtMostIfPresent(MetaVersion(replies[i]), MetaVersion(replies[j]))
      ensures AtMostIfPresent(ConfVersion(replies[i]), MetaVersion(replies[j]))
    {
      assert AtMostIfPresent(ConfVersion(replies[i]), ConfVersion(replies[j]));
    }
  }

  /**
   * Acknowledgements never go back: if the server does not, then in every interleaving of the two stores with the two
   * reads, whatever fetches fail, iterations fail to apply, or restarts intervene, every acknowledged version is
   * readable and at most every later one.
   */
  lemma AcksNeverGoBack(options: Options, actions: seq<Action>, i: nat, j: nat)
    requires var s := Exec(Init(options), actions);
      i < j < |s.acks| && s.acks[i].instanceVersion.Some? && s.acks[j].instanceVersion.Some? &&
        ServerMovesForward(s.replies)
    ensures var acks := Exec(Init(options), actions).acks;
      NoLater(acks[i].instanceVersion.value, acks[j].instanceVersion.value)
  {
    var s := Exec(Init(options), actions);
    ReachableInv(options, actions);
    hide Exec;
    OrderedAcks(s, s.acks[i], s.acks[j]);
  }

  /** Both texts are readable versions, the first at most the second. */
  predicate NoLater(a: string, b: string) {
    Parse(a).Some? && Parse(b).Some? && AtMost(Parse(a).value, Parse(b).value)
  }

  lemma OrderedAcks(s: System, a: Ack, b: Ack)
    requires ServerMovesForward(s.replies)
    requires AckIsSourced(s, a) && AckIsSourced(s, b) && Follows(a, b)
    requires a.instanceVersion.Some? && b.instanceVersion.Some?
    ensures NoLater(a.instanceVersion.value, b.instanceVersion.value)
  {
    hide Parse, AtMost;
    AckHasVersion(s, a);
    AckHasVersion(s, b);
    AckIsBounded(s, a);
    AckIsBounded(s, b);
    var w := Parse(a.instanceVersion.value).value;
    var r := s.replies;
    assert AtMostIfPresent(ConfVersion(r[a.confAt]), ConfVersion(r[b.confAt]));
    AtMostIsTransitive(w, ConfVersion(r[a.confAt]).value, ConfVersion(r[b.confAt]).value);
    if b.meta.Some? {
      if a.meta.Some? {
        assert AtMostIfPresent(MetaVersion(r[a.metaAt]), MetaVersion(r[b.metaAt]));
        AtMostIsTransitive(w, a.meta.value.networkConfigVersion, b.meta.value.networkConfigVersion);
      } else {
        assert AtMostIfPresent(ConfVersion(r[a.confAt]), MetaVersion(r[b.metaAt]));
        AtMostIsTransitive(w, ConfVersion(r[a.confAt]).value, b.meta.value.networkConfigVersion);
      }
    }
  }

  lemma AckHasVersion(s: System, a: Ack)
    requires ServerMovesForward(s.replies) && AckIsSourced(s, a) && a.instanceVersion.Some?
    ensures ConfVersion(s.replies[a.confAt]) == Parse(a.conf.instanceNetworkConfigVersion)
    ensures Parse(a.conf.instanceNetworkConfigVersion).Some?
    ensures a.meta.Some? ==> MetaVersion(s.replies[a.metaAt]) == Some(a.meta.value.networkConfigVersion)
  {
    hide Parse, AtMost;
    assert a.conf.instanceNetworkConfigVersion != "";
  }

  lemma AtMostIsTransitive(a: ConfigVersion, b: ConfigVersion, c: ConfigVersion)
    ensures AtMost(a, b) && AtMost(b, c) ==> AtMost(a, c)
  {
  }

  /** The loop's safety holds in every interleaving too, since the latest restart. */
  lemma {:induction false} EveryInterleavingIsSafe(options: Options, actions: seq<Action>)
    ensures var s := Exec(Init(options), actions);
      s.options == options && LoopInv(options, s.loop, s.log) && (s.agent != Exited ==> Alive(s.log))
  {
    if actions != [] {
      EveryInterleavingIsSafe(options, actions[..|actions| - 1]);
      StepKeepsLoopInv(Exec(Init(options), actions[..|actions| - 1]), actions[|actions| - 1]);
    }
  }

  lemma StepKeepsLoopInv(s: System, a: Action)
    requires LoopInv(s.options, s.loop, s.log) && (s.agent != Exited ==> Alive(s.log))
    ensures var s' := Step(s, a);
      s'.options == s.options && LoopInv(s.options, s'.loop, s'.log) && (s'.agent != Exited ==> Alive(s'.log))
  {
    hide SafeAt, IterationEvent, MetadataFromInstance, UpBefore;
    match a {
      case ReadConf(env) =>
        if s.agent == Between {
          IterationKeepsInv(s.options, s.loop, s.log, Round(None, None, env));
        }
      case Finish(env) =>
        if s.agent.HasBoth? {
          IterationKeepsInv(s.options, s.loop, s.log, Round(Some(s.agent.conf), s.agent.meta, env));
        }
      case Restart =>
        assert LoopInv(s.options, START, []) by { EveryRunIsSafe(s.options, []); }
      case _ =>
    }
  }

  // ---------------------------------------------------------------- acknowledgements and the log

  datatype Acknowledged = Acknowledged(networkVersion: string, instanceVersion: Option<string>)

  /** What the iterations since the latest restart acknowledged. */
  function LoggedAcks(log: seq<Event>): seq<Acknowledged> {
    if log == [] then []
    else
      var e := log[|log| - 1];
      LoggedAcks(log[..|log| - 1])
      + if e.Reported? && e.status.networkConfigVersion.Some?
        then [Acknowledged(e.status.networkConfigVersion.value, e.status.instanceNetworkConfigVersion)] else []
  }

  function AckTexts(acks: seq<Ack>): seq<Acknowledged> {
    seq(|acks|, i requires 0 <= i < |acks| => Acknowledged(acks[i].networkVersion, acks[i].instanceVersion))
  }

  predicate EndsWith(s: seq<Acknowledged>, tail: seq<Acknowledged>) {
    |tail| <= |s| && s[|s| - |tail|..] == tail
  }

  /**
   * In every interleaving the acknowledgements end with those of the iterations since the latest restart, one for one.
   */
  lemma {:induction false} AcksAreTheLoops(options: Options, actions: seq<Action>)
    ensures var s := Exec(Init(options), actions);
      EndsWith(AckTexts(s.acks), LoggedAcks(s.log))
  {
    if actions != [] {
      AcksAreTheLoops(options, actions[..|actions| - 1]);
      StepKeepsAcks(Exec(Init(options), actions[..|actions| - 1]), actions[|actions| - 1]);
    }
  }

  lemma StepKeepsAcks(s: System, a: Action)
    requires EndsWith(AckTexts(s.acks), LoggedAcks(s.log))
    ensures var s' := Step(s, a);
      EndsWith(AckTexts(s'.acks), LoggedAcks(s'.log))
  {
    hide IterationEvent, AfterEvent, Halts, MetadataFromInstance, EndsWith, LoggedAcks, AckTexts;
    match a {
      case ReadConf(env) =>
        if s.agent == Between && s.netconf.None? {
          BlankAcknowledgesNothing(s.loop, s.options, env);
          LogStep(s.log, IterationEvent(s.loop, s.options, None, None, env));
        }
      case Finish(env) =>
        if s.agent.HasBoth? {
          var e := IterationEvent(s.loop, s.options, Some(s.agent.conf), s.agent.meta, env);
          LogStep(s.log, e);
          if e.Reported? && e.status.networkConfigVersion.Some? {
            var ack := Ack(e.status.networkConfigVersion.value, e.status.instanceNetworkConfigVersion,
                           s.agent.conf, s.agent.confAt, s.agent.meta, s.agent.metaAt);
            AckStep(s.acks, LoggedAcks(s.log), ack);
          }
        }
      case Restart => NothingLogged(s.acks);
      case _ =>
    }
  }

  lemma LogStep(log: seq<Event>, e: Event)
    ensures LoggedAcks(log + [e]) ==
      if e.Reported? && e.status.networkConfigVersion.Some?
      then LoggedAcks(log)
           + [Acknowledged(e.status.networkConfigVersion.value, e.status.instanceNetworkConfigVersion)]
      else LoggedAcks(log)
  {
    assert (log + [e])[..|log|] == log;
  }

  lemma AckStep(acks: seq<Ack>, logged: seq<Acknowledged>, a: Ack)
    requires EndsWith(AckTexts(acks), logged)
    ensures EndsWith(AckTexts(acks + [a]), logged + [Acknowledged(a.networkVersion, a.instanceVersion)])
  {
    assert AckTexts(acks + [a]) == AckTexts(acks) + [Acknowledged(a.networkVersion, a.instanceVersion)];
  }

  lemma NothingLogged(acks: seq<Ack>)
    ensures EndsWith(AckTexts(acks), LoggedAcks([]))
  {
  }

  lemma BlankAcknowledgesNothing(l: Loop, options: Options, env: Env)
    ensures IterationEvent(l, options, None, None, env).Blank?
  {
  }

  // ---------------------------------------------------------------- restarts

  /** Nothing held, and no acknowledgement after the first `k`, stems from the first `n` replies. */
  predicate IsSince(s: System, n: nat, k: nat) {
    && n <= |s.replies| && k <= |s.acks|
    && (s.fetcher != Waiting ==> n < |s.replies|)
    && (s.netconf.Some? ==> n <= s.confAt)
    && (s.instmeta.Some? ==> n <= s.metaAt)
    && (s.agent.HasConf? || s.agent.HasBoth? ==> n <= s.agent.confAt)
    && (s.agent.HasBoth? && s.agent.meta.Some? ==> n <= s.agent.metaAt)
    && forall i :: k <= i < |s.acks| ==> n <= s.acks[i].confAt && (s.acks[i].meta.Some? ==> n <= s.acks[i].metaAt)
  }

  /**
   * A restart forgets: in whatever state it happens and whatever follows, everything acknowledged afterwards stems from
   * replies received afterwards, and the loop's log starts anew.
   */
  lemma {:induction false} RestartForgets(s: System, actions: seq<Action>)
    ensures IsSince(Exec(Step(s, Restart), actions), |s.replies|, |s.acks|)
    ensures actions == [] ==> Exec(Step(s, Restart), actions).log == [] && Exec(Step(s, Restart), actions).loop == START
    decreases |actions|
  {
    if actions != [] {
      RestartForgets(s, actions[..|actions| - 1]);
      StepStaysSince(Exec(Step(s, Restart), actions[..|actions| - 1]), actions[|actions| - 1], |s.replies|, |s.acks|);
    }
  }

  lemma StepStaysSince(s: System, a: Action, n: nat, k: nat)
    requires IsSince(s, n, k)
    ensures IsSince(Step(s, a), n, k)
  {
    hide IterationEvent, AfterEvent, Halts, MetadataFromInstance;
  }

  // ---------------------------------------------------------------- an undisturbed round

  /** The environment lets every update succeed. */
  predicate LetsAllSucceed(env: Env) {
    env.setup && env.plumbing && env.dhcp.Ok? && env.bridging.Ok? && env.nvue.Ok?
  }

  /**
   * A reply that nothing disturbs is acknowledged: fetched, stored, read and applied while HBN is up, with matching
   * readable copies, it adds exactly one acknowledgement, of its own version and of that copy.
   */
  lemma UndisturbedReplyIsAcknowledged(s: System, conf: Conf, instance: Instance, env: Env)
    requires s.fetcher == Waiting && s.agent == Between && s.loop.isHbnUp && LetsAllSucceed(env)
    requires Convertible(instance) && Parse(conf.instanceNetworkConfigVersion) == Parse(instance.networkConfigVersion)
    requires conf.instanceNetworkConfigVersion != ""
    ensures var s' := Exec(s, [Answer(Fetched(conf, Some(instance))), StoreConf, StoreMeta, ReadConf(env), ReadMeta,
                               Finish(env)]);
      && |s'.acks| == |s.acks| + 1 && s'.acks[..|s.acks|] == s.acks
      && var a := s'.acks[|s.acks|];
         && a.networkVersion == conf.managedHostConfigVersion
         && a.instanceVersion.Some?
         && Parse(a.instanceVersion.value) == Parse(instance.networkConfigVersion)
  {
    hide HealthOf, Parse, VersionString, MinByTimestamp;
    var s1 := Step(s, Answer(Fetched(conf, Some(instance))));
    var s2 := Step(s1, StoreConf);
    var s3 := Step(s2, StoreMeta);
    var s4 := Step(s3, ReadConf(env));
    var s5 := Step(s4, ReadMeta);
    var s6 := Step(s5, Finish(env));
    SixSteps(s, [Answer(Fetched(conf, Some(instance))), StoreConf, StoreMeta, ReadConf(env), ReadMeta, Finish(env)]);
    ParsedIsRepresentable(instance.networkConfigVersion);
    assert s5.agent.HasBoth? && s5.agent.conf == conf;
    assert s5.agent.meta.Some? && IsReadFrom(s5.agent.meta.value, instance);
    AckIsNeverAhead(conf, s5.agent.meta);
  }

  lemma SixSteps(s: System, actions: seq<Action>)
    requires |actions| == 6
    ensures Exec(s, actions) == Step(Step(Step(Step(Step(Step(s, actions[0]), actions[1]), actions[2]), actions[3]),
                                          actions[4]), actions[5])
  {
    hide Step, Exec;
    ExecStep(s, actions, 0);
    ExecStep(s, actions, 1);
    ExecStep(s, actions, 2);
    ExecStep(s, actions, 3);
    ExecStep(s, actions, 4);
    ExecStep(s, actions, 5);
    assert actions[..6] == actions;
  }

  lemma ExecStep(s: System, actions: seq<Action>, k: nat)
    requires k < |actions|
    ensures Exec(s, actions[..k + 1]) == Step(Exec(s, actions[..k]), actions[k])
    ensures k == 0 ==> Exec(s, actions[..k]) == s
  {
    hide Step;
    assert actions[..k + 1][..k] == actions[..k];
  }
}
