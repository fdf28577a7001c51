/** The part of EC2 the agent touches, as a value.  One remote call is one step
    that takes effect or not; a call that takes effect may still report an
    error to the agent.  Everything the agent does not do itself is a step of
    `Environment`. */
module Ec2Model {
  import opened Common

  type EniId = string

  /** Attachment ids are never reused, so an id determines its interface. */
  datatype AttachmentId = AttachmentId(eni: EniId, serial: nat)

  datatype Attachment = Attachment(
    id: AttachmentId, instance: string, index: int, detaching: bool, deleteOnTermination: bool)

  datatype Eni = Eni(
    tag: Option<string>, mac: string, attachment: Option<Attachment>,
    primary: string, secondary: set<string>, ipv6: set<string>)
  {
    function Ipv4(): set<string> { {primary} + secondary }

    /** The interface after an assign or unassign call on it; the primary
        address is not a secondary one. */
    function Readdressed(c: Call): Eni
      requires c.Readdresses()
    {
      match c
      case AssignIpv4(_, ips) => this.(secondary := secondary + (Elements(ips) - {primary}))
      case AssignIpv6(_, ips) => this.(ipv6 := ipv6 + Elements(ips))
      case UnassignIpv4(_, ips) => this.(secondary := secondary - Elements(ips))
      case UnassignIpv6(_, ips) => this.(ipv6 := ipv6 - Elements(ips))
    }
  }

  /** `issued` holds every interface id ever handed out, `ours` the interfaces
      this node's agent asked for; both only grow. */
  datatype Ec2 = Ec2(enis: map<EniId, Eni>, issued: set<EniId>, ours: set<EniId>)

  // ---- what the agent sees -------------------------------------------------

  datatype PrivateIp = PrivateIp(address: string, primary: bool)

  /** A NetworkInterface as a response shows it: addresses come as lists. */
  datatype View = View(
    id: EniId, mac: string, attachment: Option<Attachment>, available: bool,
    ipv4: seq<PrivateIp>, ipv6: seq<string>)

  function Addresses(ips: seq<PrivateIp>): set<string> {
    set p | p in ips :: p.address
  }

  predicate Shows(v: View, id: EniId, n: Eni) {
    && v.id == id && v.mac == n.mac && v.attachment == n.attachment
    && v.available == n.attachment.None?
    && Addresses(v.ipv4) == n.Ipv4()
    && (forall p :: p in v.ipv4 ==> (p.primary <==> p.address == n.primary))
    && Elements(v.ipv6) == n.ipv6
  }

  /** The device index of each interface on the instance, where it is set, and
      whether the instance names its type. */
  datatype InstanceView = InstanceView(indexes: seq<Option<int>>, typed: bool)

  function UsedIndexes(indexes: seq<Option<int>>): set<int> {
    set i | i in indexes && i.Some? :: i.value
  }

  // ---- calls ---------------------------------------------------------------

  datatype Call =
    | FindByTag(tag: string)
    | DescribeInstance
    | DescribeType
    | Create(newTag: string)
    | Attach(id: EniId, index: int)
    | SetDeleteOnTermination(id: EniId, attachment: AttachmentId)
    | AssignIpv4(id: EniId, ips: seq<string>)
    | AssignIpv6(id: EniId, ips: seq<string>)
    | UnassignIpv4(id: EniId, ips: seq<string>)
    | UnassignIpv6(id: EniId, ips: seq<string>)
    | Detach(attachment: AttachmentId)
    | DescribeEni(id: EniId)
    | Delete(id: EniId)
  {
    predicate Mutates() {
      !FindByTag? && !DescribeInstance? && !DescribeType? && !DescribeEni?
    }

    predicate Readdresses() {
      AssignIpv4? || AssignIpv6? || UnassignIpv4? || UnassignIpv6?
    }
  }

  datatype Response =
    | Failed
    | Listed(enis: seq<View>)
    | Instance(found: Option<InstanceView>)
    | InstanceType(max: Option<int>)
    | Created(view: View)
    | AttachedAs(attachment: AttachmentId)
    | Done

  // ---- facts about one state -----------------------------------------------

  predicate Attached(me: string, e: Ec2, id: EniId) {
    && id in e.enis && e.enis[id].attachment.Some?
    && e.enis[id].attachment.value.instance == me
  }

  predicate Tagged(e: Ec2, id: EniId, tag: string) {
    id in e.enis && e.enis[id].tag == Some(tag)
  }

  /** The interface carries the tag and is attached here, detaching included. */
  predicate Holder(me: string, e: Ec2, tag: string, id: EniId) {
    Attached(me, e, id) && Tagged(e, id, tag)
  }

  predicate NoHolder(me: string, e: Ec2, tag: string) {
    forall id :: id in e.enis ==> !Holder(me, e, tag, id)
  }

  predicate OnlyHolder(me: string, e: Ec2, tag: string, x: EniId) {
    forall id :: id in e.enis && Holder(me, e, tag, id) ==> id == x
  }

  /** Attached here and not on its way out. */
  predicate Steady(me: string, e: Ec2, id: EniId) {
    Attached(me, e, id) && !e.enis[id].attachment.value.detaching
  }

  predicate Loose(n: Eni) {
    n.attachment.None? || n.attachment.value.detaching
  }

  function IndexesInUse(me: string, e: Ec2): set<int> {
    set id | id in e.enis && Attached(me, e, id) :: e.enis[id].attachment.value.index
  }

  /** What EC2 itself maintains, and the assumption on other actors: nobody else
      attaches an interface carrying the agent's tag key to this instance. */
  predicate Wf(me: string, e: Ec2) {
    && e.enis.Keys <= e.issued && e.ours <= e.issued
    && (forall id :: id in e.enis && e.enis[id].attachment.Some? ==> e.enis[id].attachment.value.id.eni == id)
    && (forall id :: id in e.ours && id in e.enis && e.enis[id].attachment.Some? ==> Attached(me, e, id))
    && (forall id :: id in e.enis && id !in e.ours && Attached(me, e, id) ==> e.enis[id].tag.None?)
    && (forall a, b | a in e.enis && b in e.enis && Attached(me, e, a) && Attached(me, e, b) ::
          e.enis[a].attachment.value.index == e.enis[b].attachment.value.index ==> a == b)
  }

  // ---- steps ---------------------------------------------------------------

  /** `vs` lists, in any order, the interfaces that match the lookup filter. */
  predicate Lists(me: string, e: Ec2, tag: string, vs: seq<View>) {
    && (forall v :: v in vs ==> Holder(me, e, tag, v.id) && Shows(v, v.id, e.enis[v.id]))
    && (forall id :: id in e.enis && Holder(me, e, tag, id) ==> exists v :: v in vs && v.id == id)
  }

  function WithEni(e: Ec2, id: EniId, n: Eni): Ec2 {
    e.(enis := e.enis[id := n])
  }

  predicate CreatedEni(e: Ec2, tag: string, id: EniId, e': Ec2) {
    && id !in e.issued && id in e'.enis
    && e'.enis[id].tag == Some(tag) && e'.enis[id].attachment.None?
    && e' == Ec2(e.enis[id := e'.enis[id]], e.issued + {id}, e.ours + {id})
  }

  function AfterAttach(me: string, e: Ec2, id: EniId, index: int, att: AttachmentId): Ec2
    requires id in e.enis
  {
    WithEni(e, id, e.enis[id].(attachment := Some(Attachment(att, me, index, false, false))))
  }

  predicate CanAttach(me: string, e: Ec2, id: EniId, index: int) {
    id in e.enis && e.enis[id].attachment.None? && index !in IndexesInUse(me, e)
  }

  predicate Is(e: Ec2, att: AttachmentId) {
    && att.eni in e.enis && e.enis[att.eni].attachment.Some?
    && e.enis[att.eni].attachment.value.id == att
  }

  function AfterSetDelete(e: Ec2, att: AttachmentId): Ec2
    requires Is(e, att)
  {
    var n := e.enis[att.eni];
    WithEni(e, att.eni, n.(attachment := Some(n.attachment.value.(deleteOnTermination := true))))
  }

  function AfterDetach(e: Ec2, att: AttachmentId): Ec2
    requires Is(e, att)
  {
    var n := e.enis[att.eni];
    WithEni(e, att.eni, n.(attachment := Some(n.attachment.value.(detaching := true))))
  }

  function AfterDelete(e: Ec2, id: EniId): Ec2 {
    e.(enis := e.enis - {id})
  }

  /** The call had its effect and answered `ok`, or had its effect and reported
      an error, or did nothing and reported an error. */
  predicate Effect(e: Ec2, r: Response, e': Ec2, can: bool, after: Ec2, ok: Response) {
    || (can && e' == after && (r == ok || r == Failed))
    || (e' == e && r == Failed)
  }

  predicate Readdresses(e: Ec2, c: Call, r: Response, e': Ec2)
    requires c.Readdresses()
  {
    Effect(e, r, e', c.id in e.enis, if c.id in e.enis then WithEni(e, c.id, e.enis[c.id].Readdressed(c)) else e, Done)
  }

  /** One call by the agent on instance `me`. */
  predicate Executes(me: string, e: Ec2, c: Call, r: Response, e': Ec2) {
    match c
    case FindByTag(tag) => e' == e && (r.Failed? || (r.Listed? && Lists(me, e, tag, r.enis)))
    case DescribeInstance =>
      e' == e && (r.Failed? || (r.Instance? && (r.found.Some? ==>
        UsedIndexes(r.found.value.indexes) == IndexesInUse(me, e))))
    case DescribeType => e' == e && (r.Failed? || r.InstanceType?)
    case Create(tag) =>
      || (e' == e && r.Failed?)
      || (r.Failed? && exists id :: id in e'.enis && CreatedEni(e, tag, id, e'))
      || (r.Created? && CreatedEni(e, tag, r.view.id, e') && Shows(r.view, r.view.id, e'.enis[r.view.id]))
    case Attach(id, index) =>
      || (e' == e && r.Failed?)
      || (r.Failed? && CanAttach(me, e, id, index) && id in e'.enis && e'.enis[id].attachment.Some?
          && e'.enis[id].attachment.value.id.eni == id
          && e' == AfterAttach(me, e, id, index, e'.enis[id].attachment.value.id))
      || (r.AttachedAs? && CanAttach(me, e, id, index) && r.attachment.eni == id
          && e' == AfterAttach(me, e, id, index, r.attachment))
    case SetDeleteOnTermination(id, att) =>
      Effect(e, r, e', Is(e, att) && att.eni == id, if Is(e, att) then AfterSetDelete(e, att) else e, Done)
    case AssignIpv4(_, _) => Readdresses(e, c, r, e')
    case AssignIpv6(_, _) => Readdresses(e, c, r, e')
    case UnassignIpv4(_, _) => Readdresses(e, c, r, e')
    case UnassignIpv6(_, _) => Readdresses(e, c, r, e')
    case Detach(att) =>
      Effect(e, r, e', Is(e, att), if Is(e, att) then AfterDetach(e, att) else e, Done)
    case DescribeEni(id) =>
      e' == e && (r.Failed? || (r.Listed? && if id in e.enis
        then |r.enis| == 1 && Shows(r.enis[0], id, e.enis[id])
        else r.enis == []))
    case Delete(id) =>
      Effect(e, r, e', id in e.enis && e.enis[id].attachment.None?, AfterDelete(e, id), Done)
  }

  /** How an interface of ours may change behind the agent's back. */
  predicate Settles(n: Eni, n': Eni) {
    n' == n || (Loose(n) && n' == n.(attachment := None))
  }

  /** Any number of steps of everybody else: a requested detachment completes,
      an unattached interface is cleaned up, other interfaces do as they like. */
  predicate Environment(me: string, e: Ec2, e': Ec2) {
    && Wf(me, e') && e'.ours == e.ours && e.issued <= e'.issued
    && (forall id :: id in e.ours && id in e'.enis ==> id in e.enis && Settles(e.enis[id], e'.enis[id]))
    && (forall id :: id in e.ours && id in e.enis && id !in e'.enis ==> Loose(e.enis[id]))
  }

  // ---- EC2's own guarantees survive every step -------------------------------

  /** Same tag, and attached (or not) to the same place under the same id. */
  predicate SameSeat(n: Eni, n': Eni) {
    && n'.tag == n.tag
    && (n.attachment.None? <==> n'.attachment.None?)
    && (n.attachment.Some? ==>
          && n'.attachment.value.id == n.attachment.value.id
          && n'.attachment.value.instance == n.attachment.value.instance
          && n'.attachment.value.index == n.attachment.value.index)
  }

  lemma UpdateKeepsWf(me: string, e: Ec2, id: EniId, n': Eni)
    requires Wf(me, e) && id in e.enis && SameSeat(e.enis[id], n')
    ensures Wf(me, WithEni(e, id, n'))
  {
  }

  lemma AttachKeepsWf(me: string, e: Ec2, id: EniId, index: int, att: AttachmentId)
    requires Wf(me, e) && CanAttach(me, e, id, index) && att.eni == id && id in e.ours
    ensures Wf(me, AfterAttach(me, e, id, index, att))
  {
    var e' := AfterAttach(me, e, id, index, att);
    forall x | x in e.enis && Attached(me, e, x)
      ensures e.enis[x].attachment.value.index != index
    {
      assert e.enis[x].attachment.value.index in IndexesInUse(me, e);
    }
    forall a, b | a in e'.enis && b in e'.enis && Attached(me, e', a) && Attached(me, e', b)
      && e'.enis[a].attachment.value.index == e'.enis[b].attachment.value.index
      ensures a == b
    {
      assert a != id ==> Attached(me, e, a);
      assert b != id ==> Attached(me, e, b);
    }
  }

  lemma CreateKeepsWf(me: string, e: Ec2, tag: string, id: EniId, e': Ec2)
    requires Wf(me, e) && CreatedEni(e, tag, id, e')
    ensures Wf(me, e')
  {
  }

  lemma DeleteKeepsWf(me: string, e: Ec2, id: EniId)
    requires Wf(me, e)
    ensures Wf(me, AfterDelete(e, id))
  {
  }

  lemma ExecutesKeepsWf(me: string, e: Ec2, c: Call, r: Response, e': Ec2)
    requires Wf(me, e) && Executes(me, e, c, r, e')
    requires c.Attach? ==> c.id in e.ours
    ensures Wf(me, e')
    ensures e.ours <= e'.ours && e.issued <= e'.issued
  {
    if e' != e {
      match c
      case Create(tag) =>
        var id :| CreatedEni(e, tag, id, e');
        CreateKeepsWf(me, e, tag, id, e');
      case Attach(id, index) => AttachKeepsWf(me, e, id, index, e'.enis[id].attachment.value.id);
      case SetDeleteOnTermination(_, att) => UpdateKeepsWf(me, e, att.eni, e'.enis[att.eni]);
      case Detach(att) => UpdateKeepsWf(me, e, att.eni, e'.enis[att.eni]);
      case AssignIpv4(id, _) => UpdateKeepsWf(me, e, id, e'.enis[id]);
      case AssignIpv6(id, _) => UpdateKeepsWf(me, e, id, e'.enis[id]);
      case UnassignIpv4(id, _) => UpdateKeepsWf(me, e, id, e'.enis[id]);
      case UnassignIpv6(id, _) => UpdateKeepsWf(me, e, id, e'.enis[id]);
      case Delete(id) => DeleteKeepsWf(me, e, id);
      case FindByTag(_) =>
      case DescribeInstance =>
      case DescribeType =>
      case DescribeEni(_) =>
    }
  }
}
