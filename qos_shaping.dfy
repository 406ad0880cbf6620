/** The traffic-shaping step of the experiment (apply_qos_tc in
    experimento_qos.py): the tc operations it issues, the queueing state of
    one interface, how that state answers each operation, a stricter design
    validator for a plan, and the port classification the final state gives. */
module QosShaping {
  import opened Wrappers

  /** A tc handle major:minor. tc reads both halves as hexadecimal, so
      "1:30" is Handle(1, 0x30) and "20:" is Handle(0x20, 0). */
  datatype Handle = Handle(major: nat, minor: nat)

  /** A destination port: the 16-bit field `match ip dport P 0xffff` compares. */
  newtype Port = p: int | 0 <= p < 0x1_0000

  datatype QdiscKind =
    | Htb(defaultMinor: nat)
    | Tbf(rateKbit: nat, burstBytes: nat, latencyMs: nat)

  datatype Qdisc = Qdisc(handle: Handle, kind: QdiscKind)

  /** A qdisc grafted under an HTB class (`parent <class> handle ...`). */
  datatype Leaf = Leaf(parent: Handle, qdisc: Qdisc)

  /** An HTB class; rates are in kbit/s. */
  datatype HtbClass = HtbClass(parent: Handle, classid: Handle, rateKbit: nat, ceilKbit: nat)

  /** A u32 filter on the destination port under qdisc `parent`. */
  datatype U32Filter = U32Filter(parent: Handle, prio: nat, dport: Port, flowid: Handle)

  /** One `tc` command, by the device it names. */
  datatype TcOp =
    | DelRoot(dev: string)
    | AddRoot(dev: string, q: Qdisc)
    | AddLeaf(dev: string, parent: Handle, q: Qdisc)
    | AddClass(dev: string, c: HtbClass)
    | AddFilter(dev: string, f: U32Filter)

  /** The queueing configuration of one interface, objects in creation order. */
  datatype IfaceState = IfaceState(
    root: Option<Qdisc>, leaves: seq<Leaf>, classes: seq<HtbClass>, filters: seq<U32Filter>)

  const Empty := IfaceState(None, [], [], [])

  datatype TcError = NoSuchQdisc | AlreadyExists | NoSuchParent

  function Mbit(n: nat): nat { n * 1000 }

  predicate HasClass(s: IfaceState, h: Handle)
  {
    exists i :: 0 <= i < |s.classes| && s.classes[i].classid == h
  }

  /** Some qdisc is already grafted under class p. */
  predicate HasLeafUnder(s: IfaceState, p: Handle)
  {
    exists i :: 0 <= i < |s.leaves| && s.leaves[i].parent == p
  }

  /** The handles of the qdiscs present: the root and the grafted ones. */
  predicate QdiscHandleUsed(s: IfaceState, h: Handle)
  {
    (s.root.Some? && s.root.value.handle == h)
    || exists i :: 0 <= i < |s.leaves| && s.leaves[i].qdisc.handle == h
  }

  // ----- how the interface answers each command -----

  /** The kernel's answer to one command: the new state, or the error tc
      reports. Deleting the root removes the whole tree; a filter's flowid is
      not checked against the classes. */
  function Apply(s: IfaceState, op: TcOp): (r: Result<IfaceState, TcError>)
    ensures r.Success? && op.DelRoot? ==> r.value == Empty
    ensures r.Success? && !op.DelRoot? ==> Keeps(s, r.value) && Objects(r.value) == Objects(s) + 1
    ensures op.DelRoot? ==> (r.Failure? <==> s.root.None?)
  {
    match op
    case DelRoot(_) =>
      if s.root.None? then Failure(NoSuchQdisc) else Success(Empty)
    case AddRoot(_, q) =>
      if s.root.Some? then Failure(AlreadyExists) else Success(s.(root := Some(q)))
    case AddLeaf(_, p, q) =>
      if !HasClass(s, p) then Failure(NoSuchParent)
      else if QdiscHandleUsed(s, q.handle) || HasLeafUnder(s, p) then Failure(AlreadyExists)
      else Success(s.(leaves := s.leaves + [Leaf(p, q)]))
    case AddClass(_, c) =>
      if s.root.None? || !s.root.value.kind.Htb? then Failure(NoSuchQdisc)
      else if !(c.parent == s.root.value.handle || HasClass(s, c.parent)) then Failure(NoSuchParent)
      else if HasClass(s, c.classid) || c.classid == s.root.value.handle then Failure(AlreadyExists)
      else Success(s.(classes := s.classes + [c]))
    case AddFilter(_, f) =>
      if s.root.None? || f.parent != s.root.value.handle then Failure(NoSuchQdisc)
      else Success(s.(filters := s.filters + [f]))
  }

  /** How many tc objects a configuration holds. */
  function Objects(s: IfaceState): nat
  {
    (if s.root.Some? then 1 else 0) + |s.leaves| + |s.classes| + |s.filters|
  }

  /** Everything s holds is still in t, in the same order. */
  predicate Keeps(s: IfaceState, t: IfaceState)
  {
    && (s.root.Some? ==> t.root == s.root)
    && s.leaves <= t.leaves && s.classes <= t.classes && s.filters <= t.filters
  }

  /** Running a command on the switch: its output is discarded, so a refused
      command leaves the interface as it was and the script goes on. */
  function Step(s: IfaceState, op: TcOp): IfaceState
  {
    match Apply(s, op)
    case Success(t) => t
    case Failure(_) => s
  }

  /** Whether the kernel accepts a command or refuses it, a valid
      configuration stays valid. */
  lemma StepKeepsValid(s: IfaceState, op: TcOp)
    requires ConfigValid(s)
    ensures ConfigValid(Step(s, op))
  {
    if Apply(s, op).Success? {
      ApplyPreservesValid(s, op);
    }
  }

  /** The interface after a run of commands, in order. */
  function Run(s: IfaceState, ops: seq<TcOp>): IfaceState
    decreases |ops|
  {
    if ops == [] then s else Run(Step(s, ops[0]), ops[1..])
  }

  /** Whether the interface accepts every command of a run. */
  predicate AllAccepted(s: IfaceState, ops: seq<TcOp>)
    decreases |ops|
  {
    ops == [] || (Apply(s, ops[0]).Success? && AllAccepted(Apply(s, ops[0]).value, ops[1..]))
  }

  /** What every reachable configuration satisfies: nothing without a root,
      every class under the root or an existing class, every grafted qdisc
      under a class, and class ids distinct and different from the root's. */
  predicate ConfigValid(s: IfaceState)
  {
    && (s.root.None? ==> s.leaves == [] && s.classes == [] && s.filters == [])
    && (forall i :: 0 <= i < |s.classes| ==>
          (s.root.Some? && s.classes[i].parent == s.root.value.handle)
          || exists j :: 0 <= j < i && s.classes[j].classid == s.classes[i].parent)
    && (forall i :: 0 <= i < |s.leaves| ==> HasClass(s, s.leaves[i].parent))
    && (forall i, j :: 0 <= i < j < |s.classes| ==> s.classes[i].classid != s.classes[j].classid)
    && (forall i :: 0 <= i < |s.classes| ==> s.root.Some? && s.classes[i].classid != s.root.value.handle)
  }

  /** Starting from a valid configuration, any run of commands, accepted or
      refused, ends in a valid one. */
  lemma {:induction false} RunPreservesValid(s: IfaceState, ops: seq<TcOp>)
    requires ConfigValid(s)
    ensures ConfigValid(Run(s, ops))
    decreases |ops|
  {
    if ops != [] {
      if Apply(s, ops[0]).Success? {
        ApplyPreservesValid(s, ops[0]);
      }
      RunPreservesValid(Step(s, ops[0]), ops[1..]);
    }
  }

  /** Every command the interface accepts keeps its configuration valid. */
  lemma ApplyPreservesValid(s: IfaceState, op: TcOp)
    requires ConfigValid(s) && Apply(s, op).Success?
    ensures ConfigValid(Apply(s, op).value)
  {
    match op {
      case DelRoot(_) =>
      case AddRoot(_, q) =>
      case AddLeaf(dev, p, q) => AddLeafValid(s, dev, p, q);
      case AddClass(dev, c) => AddClassValid(s, dev, c);
      case AddFilter(_, f) =>
    }
  }

  lemma AddLeafValid(s: IfaceState, dev: string, p: Handle, q: Qdisc)
    requires ConfigValid(s) && Apply(s, AddLeaf(dev, p, q)).Success?
    ensures ConfigValid(Apply(s, AddLeaf(dev, p, q)).value)
  {
    var t := Apply(s, AddLeaf(dev, p, q)).value;
    assert t.classes == s.classes;
    forall i | 0 <= i < |t.leaves| ensures HasClass(t, t.leaves[i].parent) {
      if i < |s.leaves| {
        assert t.leaves[i] == s.leaves[i];
      }
    }
  }

  lemma AddClassValid(s: IfaceState, dev: string, c: HtbClass)
    requires ConfigValid(s) && Apply(s, AddClass(dev, c)).Success?
    ensures ConfigValid(Apply(s, AddClass(dev, c)).value)
  {
    var t := Apply(s, AddClass(dev, c)).value;
    var n := |s.classes|;
    assert t.classes == s.classes + [c];
    assert t.classes[n] == c;
    assert forall i :: 0 <= i < n ==> t.classes[i] == s.classes[i];
    if c.parent != s.root.value.handle {
      var k :| 0 <= k < n && s.classes[k].classid == c.parent;
      assert t.classes[k].classid == t.classes[n].parent;
    }
    forall i | 0 <= i < |t.leaves| ensures HasClass(t, t.leaves[i].parent) {
      assert HasClass(s, s.leaves[i].parent);
      var k :| 0 <= k < n && s.classes[k].classid == s.leaves[i].parent;
      assert t.classes[k].classid == t.leaves[i].parent;
    }
  }

  /** Deleting the root qdisc, with a refusal ignored: on a valid interface
      the delete either clears the old tree or finds nothing to clear, and
      both ways the interface is empty afterwards. */
  lemma DeleteLeavesEmpty(s: IfaceState, dev: string)
    requires ConfigValid(s)
    ensures Step(s, DelRoot(dev)) == Empty
  {
  }

  // ----- the design rules a plan should keep -----

  /** Sum of the guaranteed rates of the classes directly under `parent`. */
  function ChildRates(cs: seq<HtbClass>, parent: Handle): nat
  {
    if cs == [] then 0
    else
      var last := cs[|cs| - 1];
      ChildRates(cs[..|cs| - 1], parent) + (if last.parent == parent then last.rateKbit else 0)
  }

  lemma ChildRatesAppend(cs: seq<HtbClass>, c: HtbClass, parent: Handle)
    ensures ChildRates(cs + [c], parent) == ChildRates(cs, parent) + (if c.parent == parent then c.rateKbit else 0)
  {
    assert (cs + [c])[..|cs|] == cs;
  }

  lemma {:induction false} ChildRatesNone(cs: seq<HtbClass>, parent: Handle)
    requires forall i :: 0 <= i < |cs| ==> cs[i].parent != parent
    ensures ChildRates(cs, parent) == 0
  {
    if cs != [] {
      ChildRatesNone(cs[..|cs| - 1], parent);
    }
  }

  /** The rule one command must keep, given the configuration before it:
      - a new root is an HTB qdisc on a bare interface;
      - a class has rate <= ceil, and under a parent class its ceil is at
        most the parent's and the parent's children together are guaranteed
        no more than the parent's rate;
      - a filter sits on the root and its flowid names an existing class;
      - a grafted qdisc goes under an existing class that has none yet. */
  predicate Strict(s: IfaceState, op: TcOp)
  {
    match op
    case DelRoot(_) => false
    case AddRoot(_, q) => s.root.None? && q.kind.Htb? && q.handle.minor == 0
    case AddLeaf(_, p, q) =>
      HasClass(s, p) && !QdiscHandleUsed(s, q.handle) && !HasLeafUnder(s, p) && q.handle.minor == 0
    case AddClass(_, c) =>
      && s.root.Some? && s.root.value.kind.Htb?
      && s.root.value.handle.minor == 0
      && c.classid.major == s.root.value.handle.major && c.classid.minor != 0
      && !HasClass(s, c.classid)
      && c.rateKbit <= c.ceilKbit
      && (c.parent == s.root.value.handle
          || exists i :: 0 <= i < |s.classes| && s.classes[i].classid == c.parent
               && c.ceilKbit <= s.classes[i].ceilKbit
               && ChildRates(s.classes, c.parent) + c.rateKbit <= s.classes[i].rateKbit)
    case AddFilter(_, f) =>
      s.root.Some? && f.parent == s.root.value.handle && HasClass(s, f.flowid)
  }

  /** Every class's ceil is at most its parent class's ceil. */
  predicate CeilsNested(cs: seq<HtbClass>)
  {
    forall i, j :: 0 <= i < |cs| && 0 <= j < |cs| && cs[i].parent == cs[j].classid
      ==> cs[i].ceilKbit <= cs[j].ceilKbit
  }

  /** The children of a class are guaranteed no more than its own rate. */
  predicate ChildRatesWithin(cs: seq<HtbClass>)
  {
    forall j :: 0 <= j < |cs| ==> ChildRates(cs, cs[j].classid) <= cs[j].rateKbit
  }

  /** What the rules keep in every state they build: the rate bounds. */
  predicate RatesRespected(s: IfaceState)
  {
    && (forall i :: 0 <= i < |s.classes| ==> s.classes[i].rateKbit <= s.classes[i].ceilKbit)
    && CeilsNested(s.classes)
    && ChildRatesWithin(s.classes)
  }

  /** The rules imply the kernel's own checks: a command that keeps them is
      accepted. */
  lemma StrictAccepted(s: IfaceState, op: TcOp)
    requires ConfigValid(s) && Strict(s, op)
    ensures Apply(s, op).Success?
  {
    match op {
      case AddClass(_, c) =>
        if c.parent != s.root.value.handle {
          var i :| 0 <= i < |s.classes| && s.classes[i].classid == c.parent;
        }
      case _ =>
    }
  }

  /** Appending a class whose id no class hangs under, and whose ceil is
      within that of every class carrying its parent's id, keeps the ceils
      nested. */
  lemma AppendKeepsCeils(cs: seq<HtbClass>, c: HtbClass)
    requires CeilsNested(cs)
    requires forall i :: 0 <= i < |cs| ==> cs[i].parent != c.classid
    requires forall k :: 0 <= k < |cs| && cs[k].classid == c.parent ==> c.ceilKbit <= cs[k].ceilKbit
    ensures CeilsNested(cs + [c])
  {
    var t := cs + [c];
    assert forall i :: 0 <= i < |cs| ==> t[i] == cs[i];
  }

  /** Appending a class that has no children yet, and whose rate fits in
      what its parent class has left, keeps every class's children within
      its rate. */
  lemma AppendKeepsChildRates(cs: seq<HtbClass>, c: HtbClass)
    requires ChildRatesWithin(cs)
    requires forall i :: 0 <= i < |cs| ==> cs[i].parent != c.classid
    requires c.parent != c.classid
    requires forall k :: 0 <= k < |cs| && cs[k].classid == c.parent ==>
      ChildRates(cs, c.parent) + c.rateKbit <= cs[k].rateKbit
    ensures ChildRatesWithin(cs + [c])
  {
    var t := cs + [c];
    ChildRatesNone(cs, c.classid);
    ChildRatesAppend(cs, c, c.classid);
    forall j | 0 <= j < |t| ensures ChildRates(t, t[j].classid) <= t[j].rateKbit {
      ChildRatesAppend(cs, c, t[j].classid);
      if j < |cs| {
        assert t[j] == cs[j];
      }
    }
  }

  /** On a valid interface, no class hangs under an id that is not yet a class. */
  lemma NoChildOfNewClass(s: IfaceState, id: Handle)
    requires ConfigValid(s) && !HasClass(s, id) && (s.root.Some? ==> id != s.root.value.handle)
    ensures forall i :: 0 <= i < |s.classes| ==> s.classes[i].parent != id
  {
    forall i | 0 <= i < |s.classes| ensures s.classes[i].parent != id {
      if s.classes[i].parent != s.root.value.handle {
        var j :| 0 <= j < i && s.classes[j].classid == s.classes[i].parent;
      }
    }
  }

  /** Class ids are distinct, so the parent class the rule names is every
      class that carries the parent's id. */
  lemma ParentClassBounds(s: IfaceState, c: HtbClass, dev: string)
    requires ConfigValid(s) && Strict(s, AddClass(dev, c))
    ensures forall k :: 0 <= k < |s.classes| && s.classes[k].classid == c.parent ==>
      c.ceilKbit <= s.classes[k].ceilKbit
      && ChildRates(s.classes, c.parent) + c.rateKbit <= s.classes[k].rateKbit
  {
    var cs := s.classes;
    forall k | 0 <= k < |cs| && cs[k].classid == c.parent
      ensures c.ceilKbit <= cs[k].ceilKbit && ChildRates(cs, c.parent) + c.rateKbit <= cs[k].rateKbit
    {
      var m :| 0 <= m < |cs| && cs[m].classid == c.parent
        && c.ceilKbit <= cs[m].ceilKbit
        && ChildRates(cs, c.parent) + c.rateKbit <= cs[m].rateKbit;
      SameIdSameClass(cs, m, k);
    }
  }

  lemma SameIdSameClass(cs: seq<HtbClass>, m: nat, k: nat)
    requires forall i, j :: 0 <= i < j < |cs| ==> cs[i].classid != cs[j].classid
    requires m < |cs| && k < |cs| && cs[m].classid == cs[k].classid
    ensures m == k
  {
  }

  /** Adding a class under the rules keeps the rate bounds. */
  lemma StrictKeepsRates(s: IfaceState, c: HtbClass, dev: string)
    requires ConfigValid(s) && RatesRespected(s) && Strict(s, AddClass(dev, c))
    ensures Apply(s, AddClass(dev, c)).Success?
    ensures RatesRespected(Apply(s, AddClass(dev, c)).value)
  {
    StrictAccepted(s, AddClass(dev, c));
    var cs := s.classes;
    assert Apply(s, AddClass(dev, c)).value.classes == cs + [c];
    NoChildOfNewClass(s, c.classid);
    ParentClassBounds(s, c, dev);
    AppendKeepsCeils(cs, c);
    AppendKeepsChildRates(cs, c);
    assert forall i :: 0 <= i < |cs| ==> (cs + [c])[i] == cs[i];
  }

  /** Every command of a run keeps the rules. */
  predicate ChecksFrom(s: IfaceState, ops: seq<TcOp>)
    decreases |ops|
  {
    ops == [] || (Strict(s, ops[0]) && ChecksFrom(Step(s, ops[0]), ops[1..]))
  }

  /** The HTB `default` minor names a class of the configuration. */
  predicate DefaultClassExists(s: IfaceState)
  {
    s.root.Some? && s.root.value.kind.Htb?
    && HasClass(s, Handle(s.root.value.handle.major, s.root.value.kind.defaultMinor))
  }

  predicate OnDevice(ops: seq<TcOp>, iface: string)
  {
    forall k :: 0 <= k < |ops| ==> ops[k].dev == iface
  }

  /** A shaping plan for `iface`: it names only `iface`, starts by deleting
      the root, every later command keeps the rules, and the HTB default
      class is among the classes it creates. */
  predicate WellFormedPlan(ops: seq<TcOp>, iface: string)
  {
    && |ops| > 0 && ops[0] == DelRoot(iface)
    && OnDevice(ops, iface)
    && ChecksFrom(Empty, ops[1..])
    && DefaultClassExists(Run(Empty, ops[1..]))
  }

  /** A run that keeps the rules from a valid configuration is accepted
      command by command, and ends valid and within the rate bounds. */
  lemma {:induction false} ChecksFromSound(s: IfaceState, ops: seq<TcOp>)
    requires ConfigValid(s) && RatesRespected(s) && ChecksFrom(s, ops)
    ensures AllAccepted(s, ops)
    ensures ConfigValid(Run(s, ops)) && RatesRespected(Run(s, ops))
    decreases |ops|
  {
    if ops != [] {
      StrictAccepted(s, ops[0]);
      ApplyPreservesValid(s, ops[0]);
      var t := Apply(s, ops[0]).value;
      if ops[0].AddClass? {
        StrictKeepsRates(s, ops[0].c, ops[0].dev);
      } else {
        assert t.classes == s.classes;
      }
      ChecksFromSound(t, ops[1..]);
    }
  }

  /** Applying a well-formed plan to any valid configuration: every command
      after the delete is accepted, and the result does not depend on what
      the interface held before. */
  lemma WellFormedPlanSound(start: IfaceState, ops: seq<TcOp>, iface: string)
    requires ConfigValid(start) && WellFormedPlan(ops, iface)
    ensures AllAccepted(Empty, ops[1..])
    ensures Run(start, ops) == Run(Empty, ops[1..])
    ensures ConfigValid(Run(start, ops)) && RatesRespected(Run(start, ops))
    ensures DefaultClassExists(Run(start, ops))
  {
    DeleteLeavesEmpty(start, iface);
    ChecksFromSound(Empty, ops[1..]);
  }

  // ----- the configuration apply_qos_tc issues -----

  const RootHandle := Handle(1, 0)
  const ParentClass := Handle(1, 1)
  const RtpClass := Handle(1, 0x10)
  const IperfClass := Handle(1, 0x20)
  const BestEffortClass := Handle(1, 0x30)
  const TbfHandle := Handle(0x20, 0)

  /** The destination ports of the video and audio RTP streams the sender
      targets, and iperf's default port. */
  const VideoPort: Port := 5004
  const AudioPort: Port := 5006
  const IperfPort: Port := 5001

  const HtbRoot := Qdisc(RootHandle, Htb(0x30))
  const Class1 := HtbClass(RootHandle, ParentClass, Mbit(10), Mbit(10))
  const Class10 := HtbClass(ParentClass, RtpClass, Mbit(4), Mbit(8))
  const Class20 := HtbClass(ParentClass, IperfClass, Mbit(2), Mbit(5))
  const Class30 := HtbClass(ParentClass, BestEffortClass, Mbit(1), Mbit(2))
  const VideoFilter := U32Filter(RootHandle, 1, VideoPort, RtpClass)
  const AudioFilter := U32Filter(RootHandle, 1, AudioPort, RtpClass)
  const IperfFilter := U32Filter(RootHandle, 2, IperfPort, IperfClass)
  /** The token-bucket leaf: 5 Mbit/s, a 10 kb burst and 70 ms of latency;
      tc's "kb" is 1024 bytes. */
  const IperfTbf := Qdisc(TbfHandle, Tbf(Mbit(5), 10 * 1024, 70))

  /** The ten commands, in the order the script issues them. */
  function QosPlan(iface: string): (r: seq<TcOp>)
    ensures |r| == 10 && OnDevice(r, iface)
  {
    [ DelRoot(iface),
      AddRoot(iface, HtbRoot),
      AddClass(iface, Class1),
      AddClass(iface, Class10),
      AddClass(iface, Class20),
      AddClass(iface, Class30),
      AddFilter(iface, VideoFilter),
      AddFilter(iface, AudioFilter),
      AddFilter(iface, IperfFilter),
      AddLeaf(iface, IperfClass, IperfTbf) ]
  }

  /** The sections of the plan after the delete: the HTB root and 1:1, the
      three child classes, and the filters with the TBF. */
  function RootCmds(iface: string): seq<TcOp>
  {
    [AddRoot(iface, HtbRoot), AddClass(iface, Class1)]
  }

  function ChildClassCmds(iface: string): seq<TcOp>
  {
    [AddClass(iface, Class10), AddClass(iface, Class20), AddClass(iface, Class30)]
  }

  function FilterCmds(iface: string): seq<TcOp>
  {
    [AddFilter(iface, VideoFilter), AddFilter(iface, AudioFilter),
     AddFilter(iface, IperfFilter), AddLeaf(iface, IperfClass, IperfTbf)]
  }

  // The configuration after each command of the plan that follows the delete.
  const AfterRoot := IfaceState(Some(HtbRoot), [], [], [])
  const AfterParentClass := AfterRoot.(classes := [Class1])
  const AfterRtpClass := AfterRoot.(classes := [Class1, Class10])
  const AfterIperfClass := AfterRoot.(classes := [Class1, Class10, Class20])
  const AfterClasses := AfterRoot.(classes := [Class1, Class10, Class20, Class30])
  const AfterVideoFilter := AfterClasses.(filters := [VideoFilter])
  const AfterAudioFilter := AfterClasses.(filters := [VideoFilter, AudioFilter])
  const AfterFilters := AfterClasses.(filters := [VideoFilter, AudioFilter, IperfFilter])
  /** The interface once apply_qos_tc has run. */
  const QosState := AfterFilters.(leaves := [Leaf(IperfClass, IperfTbf)])

  /** One command that keeps the rules and takes s to t. */
  predicate StrictStep(s: IfaceState, op: TcOp, t: IfaceState)
  {
    Strict(s, op) && Step(s, op) == t
  }

  lemma RootStep(iface: string)
    ensures StrictStep(Empty, AddRoot(iface, HtbRoot), AfterRoot)
  {
  }

  lemma ParentClassStep(iface: string)
    ensures StrictStep(AfterRoot, AddClass(iface, Class1), AfterParentClass)
  {
  }

  lemma RtpClassStep(iface: string)
    ensures StrictStep(AfterParentClass, AddClass(iface, Class10), AfterRtpClass)
  {
    assert [Class1][..0] == [];
    assert AfterParentClass.classes[0].classid == ParentClass;
    assert ChildRates([Class1], ParentClass) == 0;
  }

  lemma IperfClassStep(iface: string)
    ensures StrictStep(AfterRtpClass, AddClass(iface, Class20), AfterIperfClass)
  {
    assert [Class1][..0] == [];
    assert ChildRates([Class1], ParentClass) == 0;
    ChildRatesAppend([Class1], Class10, ParentClass);
    assert AfterRtpClass.classes[0].classid == ParentClass;
    assert [Class1] + [Class10] == [Class1, Class10];
  }

  lemma BestEffortClassStep(iface: string)
    ensures StrictStep(AfterIperfClass, AddClass(iface, Class30), AfterClasses)
  {
    assert [Class1][..0] == [];
    assert ChildRates([Class1], ParentClass) == 0;
    ChildRatesAppend([Class1], Class10, ParentClass);
    ChildRatesAppend([Class1, Class10], Class20, ParentClass);
    assert AfterIperfClass.classes[0].classid == ParentClass;
    assert [Class1] + [Class10] == [Class1, Class10];
    assert [Class1, Class10] + [Class20] == [Class1, Class10, Class20];
  }

  lemma FilterSteps(iface: string)
    ensures StrictStep(AfterClasses, AddFilter(iface, VideoFilter), AfterVideoFilter)
    ensures StrictStep(AfterVideoFilter, AddFilter(iface, AudioFilter), AfterAudioFilter)
    ensures StrictStep(AfterAudioFilter, AddFilter(iface, IperfFilter), AfterFilters)
  {
    assert AfterClasses.classes[1].classid == RtpClass;
    assert AfterClasses.classes[2].classid == IperfClass;
  }

  lemma TbfStep(iface: string)
    ensures StrictStep(AfterFilters, AddLeaf(iface, IperfClass, IperfTbf), QosState)
  {
    assert AfterClasses.classes[1].classid == RtpClass;
    assert AfterClasses.classes[2].classid == IperfClass;
  }

  lemma StrictStepCons(s: IfaceState, op: TcOp, t: IfaceState, rest: seq<TcOp>)
    requires StrictStep(s, op, t)
    ensures ChecksFrom(s, [op] + rest) == ChecksFrom(t, rest)
    ensures Run(s, [op] + rest) == Run(t, rest)
  {
    assert ([op] + rest)[0] == op;
    assert ([op] + rest)[1..] == rest;
  }

  lemma FilterRunBuilds(iface: string)
    ensures ChecksFrom(AfterClasses, FilterCmds(iface))
    ensures Run(AfterClasses, FilterCmds(iface)) == QosState
  {
    FilterSteps(iface);
    TbfStep(iface);
    var v, a, i, t := AddFilter(iface, VideoFilter), AddFilter(iface, AudioFilter),
      AddFilter(iface, IperfFilter), AddLeaf(iface, IperfClass, IperfTbf);
    assert FilterCmds(iface) == [v] + ([a] + ([i] + ([t] + [])));
    StrictStepCons(AfterFilters, t, QosState, []);
    StrictStepCons(AfterAudioFilter, i, AfterFilters, [t] + []);
    StrictStepCons(AfterVideoFilter, a, AfterAudioFilter, [i] + ([t] + []));
    StrictStepCons(AfterClasses, v, AfterVideoFilter, [a] + ([i] + ([t] + [])));
  }

  /** Running two command lists one after the other is running their
      concatenation, and it keeps the rules exactly when both halves do. */
  lemma {:induction false} RunAppend(s: IfaceState, a: seq<TcOp>, b: seq<TcOp>)
    ensures Run(s, a + b) == Run(Run(s, a), b)
    ensures ChecksFrom(s, a + b) <==> ChecksFrom(s, a) && ChecksFrom(Run(s, a), b)
    decreases |a|
  {
    if a == [] {
      assert a + b == b;
    } else {
      RunAppend(Step(s, a[0]), a[1..], b);
      assert (a + b)[0] == a[0];
      assert (a + b)[1..] == a[1..] + b;
    }
  }

  /** The root and 1:1 keep the rules and build AfterParentClass. */
  lemma RootRunBuilds(iface: string)
    ensures ChecksFrom(Empty, RootCmds(iface))
    ensures Run(Empty, RootCmds(iface)) == AfterParentClass
  {
    RootStep(iface);
    ParentClassStep(iface);
    var r, c1 := AddRoot(iface, HtbRoot), AddClass(iface, Class1);
    assert RootCmds(iface) == [r] + ([c1] + []);
    StrictStepCons(AfterRoot, c1, AfterParentClass, []);
    StrictStepCons(Empty, r, AfterRoot, [c1] + []);
  }

  /** The three child classes keep the rules and build AfterClasses. */
  lemma ChildClassRunBuilds(iface: string)
    ensures ChecksFrom(AfterParentClass, ChildClassCmds(iface))
    ensures Run(AfterParentClass, ChildClassCmds(iface)) == AfterClasses
  {
    RtpClassStep(iface);
    IperfClassStep(iface);
    BestEffortClassStep(iface);
    var c10, c20, c30 := AddClass(iface, Class10), AddClass(iface, Class20), AddClass(iface, Class30);
    assert ChildClassCmds(iface) == [c10] + ([c20] + ([c30] + []));
    StrictStepCons(AfterIperfClass, c30, AfterClasses, []);
    StrictStepCons(AfterRtpClass, c20, AfterIperfClass, [c30] + []);
    StrictStepCons(AfterParentClass, c10, AfterRtpClass, [c20] + ([c30] + []));
  }

  /** The nine commands after the delete keep the rules and build QosState. */
  lemma QosPlanBuilds(iface: string)
    ensures ChecksFrom(Empty, QosPlan(iface)[1..])
    ensures Run(Empty, QosPlan(iface)[1..]) == QosState
  {
    RootRunBuilds(iface);
    ChildClassRunBuilds(iface);
    FilterRunBuilds(iface);
    RunAppend(Empty, RootCmds(iface), ChildClassCmds(iface));
    RunAppend(Empty, RootCmds(iface) + ChildClassCmds(iface), FilterCmds(iface));
    QosPlanSections(iface);
  }

  /** The script's plan passes the validator: one device, delete first, the
      root before any class, 1:1 before its children, rate <= ceil <= the
      parent's ceil, 4 + 2 + 1 mbit within 1:1's 10 mbit, every flowid and
      the TBF's parent 1:20 created earlier, and the default class 1:30
      among the classes. */
  lemma QosPlanWellFormed(iface: string)
    ensures WellFormedPlan(QosPlan(iface), iface)
  {
    QosPlanBuilds(iface);
    assert QosState.classes[1].classid == RtpClass;
    assert QosState.classes[2].classid == IperfClass;
    assert QosState.classes[3].classid == BestEffortClass;
  }

  /** From any valid configuration the script ends in QosState, with every
      command after the delete accepted; so applying it twice gives the same
      configuration as applying it once. */
  lemma QosPlanResult(start: IfaceState, iface: string)
    requires ConfigValid(start)
    ensures Run(start, QosPlan(iface)) == QosState
    ensures AllAccepted(Empty, QosPlan(iface)[1..])
    ensures ConfigValid(QosState) && RatesRespected(QosState)
  {
    QosPlanWellFormed(iface);
    QosPlanBuilds(iface);
    WellFormedPlanSound(start, QosPlan(iface), iface);
  }

  // ----- which class a packet goes to -----

  predicate Matches(f: U32Filter, parent: Handle, port: Port)
  {
    f.parent == parent && f.dport == port
  }

  /** The filter the classifier takes for a port: among the matching filters
      on `parent`, the first one of the lowest prio. */
  function BestFilter(fs: seq<U32Filter>, parent: Handle, port: Port): (r: Option<nat>)
    ensures r.Some? ==> r.value < |fs| && Matches(fs[r.value], parent, port)
    ensures r.Some? ==> forall i :: 0 <= i < |fs| && Matches(fs[i], parent, port) ==> fs[r.value].prio <= fs[i].prio
    ensures r.Some? ==> forall i :: 0 <= i < r.value && Matches(fs[i], parent, port) ==> fs[r.value].prio < fs[i].prio
    ensures r.None? <==> forall i :: 0 <= i < |fs| ==> !Matches(fs[i], parent, port)
  {
    if fs == [] then None
    else
      var n := |fs| - 1;
      var b := BestFilter(fs[..n], parent, port);
      if !Matches(fs[n], parent, port) then b
      else if b.None? || fs[n].prio < fs[b.value].prio then Some(n)
      else b
  }

  /** An HTB class with no child class: the kind packets are queued in. */
  predicate IsLeafClass(s: IfaceState, h: Handle)
  {
    HasClass(s, h) && forall i :: 0 <= i < |s.classes| ==> s.classes[i].parent != h
  }

  datatype Target = ToClass(classid: Handle) | Unshaped

  /** Where HTB sends a packet for `port`: the flowid of the chosen filter
      when that is a leaf class, otherwise the default class, and the
      unshaped direct queue when the default is no leaf class either. */
  function Classify(s: IfaceState, port: Port): (r: Target)
    requires s.root.Some? && s.root.value.kind.Htb?
    ensures r.ToClass? ==> IsLeafClass(s, r.classid)
  {
    var root := s.root.value;
    var default := Handle(root.handle.major, root.kind.defaultMinor);
    var fallback := if IsLeafClass(s, default) then ToClass(default) else Unshaped;
    match BestFilter(s.filters, root.handle, port)
    case None => fallback
    case Some(i) =>
      if IsLeafClass(s, s.filters[i].flowid) then ToClass(s.filters[i].flowid) else fallback
  }

  /** When every filter points at a leaf class and the default is a leaf
      class, no port is left unshaped, and a port no filter matches goes to
      the default class. */
  lemma ClassifyTotal(s: IfaceState, port: Port)
    requires s.root.Some? && s.root.value.kind.Htb?
    requires forall i :: 0 <= i < |s.filters| ==> IsLeafClass(s, s.filters[i].flowid)
    requires IsLeafClass(s, Handle(s.root.value.handle.major, s.root.value.kind.defaultMinor))
    ensures Classify(s, port).ToClass?
    ensures (forall i :: 0 <= i < |s.filters| ==> !Matches(s.filters[i], s.root.value.handle, port))
      ==> Classify(s, port) == ToClass(Handle(s.root.value.handle.major, s.root.value.kind.defaultMinor))
  {
  }

  /** The class each destination port reaches under the script's plan. */
  function ExpectedClass(port: Port): Handle
  {
    if port == VideoPort || port == AudioPort then RtpClass
    else if port == IperfPort then IperfClass
    else BestEffortClass
  }

  lemma QosLeaves()
    ensures IsLeafClass(QosState, RtpClass) && IsLeafClass(QosState, IperfClass)
    ensures IsLeafClass(QosState, BestEffortClass)
    ensures !IsLeafClass(QosState, ParentClass)
  {
    assert QosState.classes[1].classid == RtpClass;
    assert QosState.classes[2].classid == IperfClass;
    assert QosState.classes[3].classid == BestEffortClass;
    assert QosState.classes[1].parent == ParentClass;
  }

  /** Ports 5004 and 5006 go to 1:10, port 5001 to 1:20, and every other
      port to the default class 1:30. */
  lemma QosClassification(port: Port)
    ensures Classify(QosState, port) == ToClass(ExpectedClass(port))
  {
    QosLeaves();
    var fs := QosState.filters;
    assert fs == [VideoFilter, AudioFilter, IperfFilter];
    var b := BestFilter(fs, RootHandle, port);
    if port == VideoPort {
      assert Matches(fs[0], RootHandle, port);
      assert b == Some(0);
    } else if port == AudioPort {
      assert Matches(fs[1], RootHandle, port);
      assert b == Some(1);
    } else if port == IperfPort {
      assert Matches(fs[2], RootHandle, port);
      assert b == Some(2);
    } else {
      assert b == None;
    }
  }

  // ----- the switch and apply_qos_tc -----

  /** A switch node: the queueing state of each of its interfaces, and the
      log of the commands run on it. An interface without an entry holds no
      configuration. */
  class Switch {
    var config: map<string, IfaceState>
    var log: seq<TcOp>

    constructor ()
      ensures Valid()
      ensures config == map[] && log == []
    {
      config := map[];
      log := [];
    }

    function Iface(dev: string): IfaceState
      reads this
    {
      if dev in config then config[dev] else Empty
    }

    ghost predicate Valid()
      reads this
    {
      AllValid(config)
    }

    /** Running one tc command on the switch: it is logged, only the device
        it names changes, by Step, and every interface stays valid. */
    method Cmd(op: TcOp)
      requires Valid()
      modifies this
      ensures Valid()
      ensures log == old(log) + [op]
      ensures config == old(config)[op.dev := Step(old(Iface(op.dev)), op)]
    {
      var s := Iface(op.dev);
      assert ValidAt(config, op.dev);
      StepKeepsValid(s, op);
      UpdateKeepsValid(config, op.dev, Step(s, op));
      config := config[op.dev := Step(s, op)];
      log := log + [op];
    }
  }

  /** apply_qos_tc(switch, iface): the ten commands go to the log in order,
      `iface` ends in QosState whatever valid configuration it held, and no
      other interface changes. */
  method ApplyQosTc(sw: Switch, iface: string)
    requires sw.Valid()
    modifies sw
    ensures sw.Valid()
    ensures sw.log == old(sw.log) + QosPlan(iface)
    ensures sw.config == old(sw.config)[iface := QosState]
  {
    ResetRoot(sw, iface);
    AddHtbRoot(sw, iface);
    AddChildClasses(sw, iface);
    AddFiltersAndTbf(sw, iface);
    QosPlanSections(iface);
  }

  /** The plan is the delete, the root section, the classes and the filters. */
  lemma QosPlanSections(iface: string)
    ensures QosPlan(iface)[1..] == RootCmds(iface) + ChildClassCmds(iface) + FilterCmds(iface)
    ensures QosPlan(iface) == [DelRoot(iface)] + RootCmds(iface) + ChildClassCmds(iface) + FilterCmds(iface)
  {
    var plan, rest := QosPlan(iface), RootCmds(iface) + ChildClassCmds(iface) + FilterCmds(iface);
    assert plan[1..] == rest;
    assert plan == [plan[0]] + plan[1..];
  }

  /** Interface dev holds a configuration the kernel can be in (an interface
      with no entry has the empty one). */
  predicate ValidAt(config: map<string, IfaceState>, dev: string)
  {
    dev in config ==> ConfigValid(config[dev])
  }

  /** Every interface of a switch holds a configuration the kernel can be in. */
  ghost predicate AllValid(config: map<string, IfaceState>)
  {
    forall dev :: ValidAt(config, dev)
  }

  /** Giving one interface a valid configuration keeps every interface valid. */
  lemma UpdateKeepsValid(config: map<string, IfaceState>, dev: string, s: IfaceState)
    requires AllValid(config) && ConfigValid(s)
    ensures AllValid(config[dev := s])
  {
    var updated := config[dev := s];
    forall d ensures ValidAt(updated, d) {
      assert ValidAt(config, d);
    }
  }

  /** The first command: delete the root qdisc of iface, a refusal ignored. */
  method ResetRoot(sw: Switch, iface: string)
    requires sw.Valid()
    modifies sw
    ensures sw.Valid()
    ensures sw.log == old(sw.log) + [DelRoot(iface)]
    ensures sw.config == old(sw.config)[iface := Empty]
  {
    assert ValidAt(sw.config, iface);
    DeleteLeavesEmpty(sw.Iface(iface), iface);
    sw.Cmd(DelRoot(iface));
  }

  /** The HTB root with `default 30` and the parent class 1:1. */
  method AddHtbRoot(sw: Switch, iface: string)
    requires sw.Valid() && sw.Iface(iface) == Empty
    modifies sw
    ensures sw.Valid()
    ensures sw.log == old(sw.log) + RootCmds(iface)
    ensures sw.config == old(sw.config)[iface := AfterParentClass]
  {
    RootStep(iface);
    ParentClassStep(iface);
    ghost var before := sw.config;
    sw.Cmd(AddRoot(iface, HtbRoot));
    assert sw.config == before[iface := AfterRoot];
    sw.Cmd(AddClass(iface, Class1));
  }

  /** The three child classes with their guaranteed rates. */
  method AddChildClasses(sw: Switch, iface: string)
    requires sw.Valid() && sw.Iface(iface) == AfterParentClass
    modifies sw
    ensures sw.Valid()
    ensures sw.log == old(sw.log) + ChildClassCmds(iface)
    ensures sw.config == old(sw.config)[iface := AfterClasses]
  {
    RtpClassStep(iface);
    IperfClassStep(iface);
    BestEffortClassStep(iface);
    ghost var before := sw.config;
    sw.Cmd(AddClass(iface, Class10));
    assert sw.config == before[iface := AfterRtpClass];
    sw.Cmd(AddClass(iface, Class20));
    assert sw.config == before[iface := AfterIperfClass];
    sw.Cmd(AddClass(iface, Class30));
  }

  /** The three port filters and the TBF under 1:20. */
  method AddFiltersAndTbf(sw: Switch, iface: string)
    requires sw.Valid() && sw.Iface(iface) == AfterClasses
    modifies sw
    ensures sw.Valid()
    ensures sw.log == old(sw.log) + FilterCmds(iface)
    ensures sw.config == old(sw.config)[iface := QosState]
  {
    FilterSteps(iface);
    TbfStep(iface);
    ghost var before := sw.config;
    sw.Cmd(AddFilter(iface, VideoFilter));
    assert sw.config == before[iface := AfterVideoFilter];
    sw.Cmd(AddFilter(iface, AudioFilter));
    assert sw.config == before[iface := AfterAudioFilter];
    sw.Cmd(AddFilter(iface, IperfFilter));
    assert sw.config == before[iface := AfterFilters];
    sw.Cmd(AddLeaf(iface, IperfClass, IperfTbf));
  }
}
