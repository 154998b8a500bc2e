/**
 The connection agent of staging/kos/pkg/controllers/connectionagent/connectionagent.go as a
 state machine.  Any number of workers share the work queue, one worker per attachment at a time;
 informer handlers run beside them.  Every section under a mutex is one step, every fabric call is
 one step that may fail, and anything else may run between two steps.  Map entries that only the
 worker of their attachment touches (nsnToVNStateVNI and the two interface maps) change together
 with the neighbouring step of that worker.
 */
module AgentMachine {
  import opened Options
  import opened UInt32
  import opened MacAddresses

  /** Attachments by name, in one API namespace. */
  type Key = nat
  type Vni = uint32
  type Ip = uint32

  /** A network attachment as an informer cache shows it. */
  datatype Att = Att(vni: Vni, onThisNode: bool, hostIP: Ip, ip: Ip)

  /** `id` names the stop channel of the remote-attachments informer. */
  datatype VnState = VnState(id: nat, localAtts: set<Key>, remoteAtts: set<Key>)

  datatype LocalIfc = LocalIfc(vni: Vni, mac: MacAddr, ip: Ip)
  datatype RemoteIfc = RemoteIfc(vni: Vni, mac: MacAddr, ip: Ip, hostIP: Ip)

  /** What the worker does once the resources of an abandoned virtual network are cleared. */
  datatype After = Rejoin(att: Att) | Finish | DropIfcs

  /** Where a worker is in processQueueItem. */
  datatype Pc =
    | Starting
    | FindingLister(vni: Vni)
    | LookingUp(lister: Option<Vni>)
    | Arriving(att: Att)
    | Joining(att: Att)
    | Strayed(att: Att)
    | ClosingChannel(vs: VnState, vni: Vni, after: After)
    | Requeueing(todo: set<Key>, vni: Vni, after: After)
    | RequeueAdd(key: Key, todo: set<Key>, vni: Vni, after: After)
    | Departing
    | DroppingIfc
    | Implementing(att: Att)
    | Creating(att: Att)
    | Reporting(att: Att)
    | Leaving(failed: bool, done: Option<Att>)

  /** `privateOnly` restricts the guest addresses of a run to the private blocks. */
  datatype Config = Config(hostIP: Ip, privateOnly: bool)

  datatype State = State(
    vnStates: map<Vni, VnState>,          // vniToVnState
    nextId: nat,                          // stop channels made so far
    closed: set<nat>,                     // stop channels closed so far
    vnStateVni: map<Key, Vni>,            // nsnToVNStateVNI
    seen: map<Key, set<Vni>>,             // nsnToVNIs
    locals: map<Key, LocalIfc>,           // nsnToLocalMainState
    remotes: map<Key, RemoteIfc>,         // nsnToRemoteIfc
    fabric: set<(Vni, Ip)>,               // VNI and IP pairs with an interface in the fabric
    dirty: set<Key>,                      // the work queue: added, not yet handed to a worker
    backoff: set<Key>,                    // added with a rate limit, waiting
    owing: set<Key>,                      // changed by an informer handler that has yet to add it
    working: map<Key, Pc>)

  const INIT := State(map[], 0, {}, map[], map[], map[], map[], {}, {}, {}, {}, map[])

  function SeenIn(s: State, k: Key): set<Vni> {
    if k in s.seen then s.seen[k] else {}
  }

  /** addVNI */
  function AddSeen(s: State, k: Key, v: Vni): State {
    s.(seen := s.seen[k := SeenIn(s, k) + {v}])
  }

  /** removeSeenInVNI, which drops an entry that becomes empty. */
  function RemoveSeen(s: State, k: Key, v: Vni): State {
    var vs := SeenIn(s, k) - {v};
    if k !in s.seen then s
    else if vs == {} then s.(seen := s.seen - {k})
    else s.(seen := s.seen[k := vs])
  }

  function At(s: State, k: Key, pc: Pc): State {
    s.(working := s.working[k := pc])
  }

  // ---- getAttachment ----

  datatype Verdict = Existing(att: Att) | Deleted

  /** An attachment found in both caches is taken for deleted, as one found in neither. */
  function Classify(asLocal: Option<Att>, asRemote: Option<Att>): Verdict {
    if asLocal.Some? && asRemote.None? then Existing(asLocal.value)
    else if asLocal.None? && asRemote.Some? then Existing(asRemote.value)
    else Deleted
  }

  // ---- vnState sections ----

  function Resume(after: After): Pc {
    match after
    case Rejoin(att) => Joining(att)
    case Finish => Leaving(false, None)
    case DropIfcs => DroppingIfc
  }

  /** removeAttFromVNState on the entry of `k`, and what follows if it returns the vnState. */
  function Depart(s: State, k: Key, v: Vni, after: After): State {
    var s1 := s.(vnStateVni := s.vnStateVni - {k});
    if v !in s.vnStates then At(s1, k, Resume(after))
    else
      var vs := s.vnStates[v];
      var left := vs.localAtts - {k};
      if left == {} then
        At(s1.(vnStates := s.vnStates - {v}), k, ClosingChannel(vs.(localAtts := left), v, after))
      else
        At(s1.(vnStates := s.vnStates[v := vs.(localAtts := left, remoteAtts := vs.remoteAtts - {k})]),
           k, Resume(after))
  }

  /** updateVNStateForExistingAtt */
  function Join(s: State, k: Key, att: Att): State {
    var v := att.vni;
    if att.onThisNode then
      var isNew := v !in s.vnStates;
      var vs := if isNew then VnState(s.nextId, {}, {}) else s.vnStates[v];
      At(s.(vnStates := s.vnStates[v := vs.(localAtts := vs.localAtts + {k}, remoteAtts := vs.remoteAtts - {k})],
            nextId := if isNew then s.nextId + 1 else s.nextId,
            vnStateVni := s.vnStateVni[k := v]),
         k, Implementing(att))
    else if v in s.vnStates then
      var vs := s.vnStates[v];
      var vs' := vs.(localAtts := vs.localAtts - {k}, remoteAtts := vs.remoteAtts + {k});
      if vs'.localAtts == {} then
        At(s.(vnStates := s.vnStates - {v}, vnStateVni := s.vnStateVni - {k}), k, ClosingChannel(vs', v, Finish))
      else
        At(s.(vnStates := s.vnStates[v := vs'], vnStateVni := s.vnStateVni[k := v]), k, Implementing(att))
    else
      At(s.(vnStateVni := s.vnStateVni - {k}), k, Strayed(att))
  }

  // ---- Interfaces ----

  /** The host of the attachment's interface: this one for an attachment of this node. */
  function HostOf(c: Config, att: Att): Ip {
    if att.onThisNode then c.hostIP else att.hostIP
  }

  function MacOf(att: Att): MacAddr {
    GenerateMacAddr(att.vni, att.ip)
  }

  function IfcNeedsUpdate(ifcHostIP: Ip, newHostIP: Ip, ifcMac: MacAddr, newMac: MacAddr): bool {
    ifcHostIP != newHostIP || ifcMac != newMac
  }

  function NeedsNewIfc(c: Config, s: State, k: Key, att: Att): bool {
    || (k !in s.locals && k !in s.remotes)
    || (k in s.locals && IfcNeedsUpdate(c.hostIP, HostOf(c, att), s.locals[k].mac, MacOf(att)))
    || (k in s.remotes && IfcNeedsUpdate(s.remotes[k].hostIP, HostOf(c, att), s.remotes[k].mac, MacOf(att)))
  }

  function Completed(att: Att): Pc {
    if att.onThisNode then Reporting(att) else Leaving(false, Some(att))
  }

  /** Deletes the recorded local interface, or else the recorded remote one, from fabric and record. */
  function DropIfc(s: State, k: Key): State {
    if k in s.locals then
      s.(locals := s.locals - {k}, fabric := s.fabric - {(s.locals[k].vni, s.locals[k].ip)})
    else if k in s.remotes then
      s.(remotes := s.remotes - {k}, fabric := s.fabric - {(s.remotes[k].vni, s.remotes[k].ip)})
    else s
  }

  function CreateIfc(c: Config, s: State, k: Key, att: Att): State {
    var s1 := s.(fabric := s.fabric + {(att.vni, att.ip)});
    if HostOf(c, att) == c.hostIP then
      s1.(locals := s.locals[k := LocalIfc(att.vni, MacOf(att), att.ip)])
    else
      s1.(remotes := s.remotes[k := RemoteIfc(att.vni, MacOf(att), att.ip, att.hostIP)])
  }

  /** Deletes the interface, if any, and goes on, unless the fabric fails. */
  function DropOr(s: State, k: Key, fails: bool, next: Pc): State {
    if fails && (k in s.locals || k in s.remotes) then At(s, k, Leaving(true, None))
    else At(DropIfc(s, k), k, next)
  }

  function CreateOr(c: Config, s: State, k: Key, att: Att, fails: bool): State {
    if fails then At(s, k, Leaving(true, None)) else At(CreateIfc(c, s, k, att), k, Completed(att))
  }

  // ---- Steps ----

  /** What a step leaves open: cache contents, map iteration order, failures. */
  datatype Choice = Choice(vni: Vni, asLocal: Option<Att>, asRemote: Option<Att>, pick: Key, fails: bool)

  datatype Action =
    | Enqueue(k: Key)                   // local informer handlers, onRemoteAttUpdated
    | RemoteAdded(k: Key, vni: Vni)     // onRemoteAttAdded, up to addVNI
    | RemoteRemoved(k: Key, vni: Vni)   // onRemoteAttRemoved, up to removeSeenInVNI
    | HandlerAdd(k: Key)                // the rest of those handlers
    | BackoffExpired(k: Key)
    | Get(k: Key)                       // a worker takes the attachment from the queue
    | Work(k: Key, ch: Choice)          // its worker makes a step

  /** The informers' field selectors, and the subnet validation's bound on VNIs. */
  predicate Selected(c: Config, att: Att) {
    && IsVni(att.vni)
    && (c.privateOnly ==> IsPrivate(att.ip))
    && (!att.onThisNode ==> att.hostIP != c.hostIP)
  }

  predicate WorkEnabled(c: Config, s: State, k: Key, ch: Choice)
    requires k in s.working
  {
    match s.working[k]
    case Starting => |SeenIn(s, k)| == 1 ==> ch.vni in SeenIn(s, k)
    case LookingUp(lister) =>
      && (ch.asLocal.Some? ==> ch.asLocal.value.onThisNode && Selected(c, ch.asLocal.value))
      && (ch.asRemote.Some? ==>
            && lister == Some(ch.asRemote.value.vni)
            && !ch.asRemote.value.onThisNode && Selected(c, ch.asRemote.value))
    case Requeueing(todo, vni, after) => todo != {} ==> ch.pick in todo
    case Creating(att) => !ch.fails ==> (att.vni, att.ip) !in s.fabric
    case _ => true
  }

  function WorkStep(c: Config, s: State, k: Key, ch: Choice): State
    requires k in s.working
  {
    match s.working[k]
    case Starting =>
      At(s, k, if |SeenIn(s, k)| > 1 then Leaving(false, None)
               else if |SeenIn(s, k)| == 1 then FindingLister(ch.vni)
               else LookingUp(None))
    case FindingLister(v) => At(s, k, LookingUp(if v in s.vnStates then Some(v) else None))
    case LookingUp(lister) =>
      (match Classify(ch.asLocal, ch.asRemote)
       case Existing(att) => At(s, k, Arriving(att))
       case Deleted => At(s, k, Departing))
    case Arriving(att) =>
      if k in s.vnStateVni && s.vnStateVni[k] != att.vni then Depart(s, k, s.vnStateVni[k], Rejoin(att))
      else At(s, k, Joining(att))
    case Joining(att) => Join(s, k, att)
    case Strayed(att) => At(RemoveSeen(s, k, att.vni), k, Departing)
    case ClosingChannel(vs, v, after) => At(s.(closed := s.closed + {vs.id}), k, Requeueing(vs.remoteAtts, v, after))
    case Requeueing(todo, v, after) =>
      if todo == {} then At(s, k, Resume(after))
      else At(RemoveSeen(s, ch.pick, v), k, RequeueAdd(ch.pick, todo - {ch.pick}, v, after))
    case RequeueAdd(r, todo, v, after) => At(s.(dirty := s.dirty + {r}), k, Requeueing(todo, v, after))
    case Departing =>
      if k in s.vnStateVni then Depart(s, k, s.vnStateVni[k], DropIfcs) else At(s, k, DroppingIfc)
    case DroppingIfc => DropOr(s, k, ch.fails, Leaving(false, None))
    case Implementing(att) =>
      if NeedsNewIfc(c, s, k, att) then DropOr(s, k, ch.fails, Creating(att)) else At(s, k, Completed(att))
    case Creating(att) => CreateOr(c, s, k, att, ch.fails)
    case Reporting(att) => At(s, k, if ch.fails then Leaving(true, None) else Leaving(false, Some(att)))
    case Leaving(failed, done) =>
      s.(working := s.working - {k}, backoff := if failed then s.backoff + {k} else s.backoff)
  }

  predicate Enabled(c: Config, s: State, a: Action) {
    match a
    case Enqueue(k) => true
    case RemoteAdded(k, v) => true
    case RemoteRemoved(k, v) => true
    case HandlerAdd(k) => k in s.owing
    case BackoffExpired(k) => k in s.backoff
    case Get(k) => k in s.dirty && k !in s.working
    case Work(k, ch) => k in s.working && WorkEnabled(c, s, k, ch)
  }

  function Apply(c: Config, s: State, a: Action): State
    requires Enabled(c, s, a)
  {
    match a
    case Enqueue(k) => s.(dirty := s.dirty + {k})
    case RemoteAdded(k, v) => AddSeen(s, k, v).(owing := s.owing + {k})
    case RemoteRemoved(k, v) => RemoveSeen(s, k, v).(owing := s.owing + {k})
    case HandlerAdd(k) => s.(owing := s.owing - {k}, dirty := s.dirty + {k})
    case BackoffExpired(k) => s.(backoff := s.backoff - {k}, dirty := s.dirty + {k})
    case Get(k) => At(s.(dirty := s.dirty - {k}), k, Starting)
    case Work(k, ch) => WorkStep(c, s, k, ch)
  }

  /** `run` is the sequence of states of some interleaving, from the end of start-up. */
  ghost predicate IsRun(c: Config, run: seq<State>) {
    && |run| > 0 && run[0] == INIT
    && forall i :: 0 < i < |run| ==> Follows(c, run[i - 1], run[i])
  }

  ghost predicate Follows(c: Config, s: State, s': State) {
    exists a :: Enabled(c, s, a) && s' == Apply(c, s, a)
  }
}
