/** The list of registered notification sinks and the fan-out of application events to it. */
module Notifications {
  import opened Sequences

  datatype Event =
    | LaunchRequestWithParams(appName: string, payload: string, query: string, addDataUrl: string)
    | LaunchRequest(appName: string, parameter: string)
    | StopRequest(appName: string, appId: string)
    | HideRequest(appName: string, appId: string)
    | StateRequest(appName: string, appId: string)
    | ResumeRequest(appName: string, appId: string)
    | UpdatePowerState

  /** A call into a sink. `Dispatch` has no branch for `UpdatePowerState`. */
  datatype Callback<L> = Callback(sink: L, event: Event)

  datatype Op<L> = Register(sink: L) | Unregister(sink: L)

  function IndexOf<L(==)>(s: seq<L>, x: L): (i: nat)
    ensures i <= |s| && x !in s[..i] && (i < |s| ==> s[i] == x)
  {
    if s == [] || s[0] == x then 0
    else
      var i := IndexOf(s[1..], x);
      assert s[..i + 1] == [s[0]] + s[1..][..i];
      i + 1
  }

  function Apply<L(==)>(list: seq<L>, op: Op<L>): seq<L> {
    match op
    case Register(l) => if l in list then list else list + [l]
    case Unregister(l) =>
      var i := IndexOf(list, l);
      if i < |list| then list[..i] + list[i + 1..] else list
  }

  lemma RemovedOnce<T>(s: seq<T>, i: nat)
    requires i < |s| && Distinct(s)
    ensures var r := s[..i] + s[i + 1..];
            && Distinct(r)
            && multiset(r) == multiset(s) - multiset{s[i]}
            && forall x :: x in r <==> x in s && x != s[i]
  {
    var r := s[..i] + s[i + 1..];
    assert s == s[..i] + [s[i]] + s[i + 1..];
    assert forall k :: 0 <= k < |r| ==> r[k] == s[if k < i then k else k + 1];
  }

  function Roster<L(==)>(ops: seq<Op<L>>): seq<L> {
    if ops == [] then [] else Apply(Roster(ops[..|ops| - 1]), ops[|ops| - 1])
  }

  // ----- membership and order over whole histories -----

  /** The last operation on `l` was a registration. */
  ghost predicate Member<L>(ops: seq<Op<L>>, l: L) {
    ops != [] &&
    var last := ops[|ops| - 1];
    if last.sink == l then last.Register? else Member(ops[..|ops| - 1], l)
  }

  /** When the current membership of `l` began: its first registration since it was last absent. */
  ghost function Joined<L>(ops: seq<Op<L>>, l: L): (t: nat)
    requires Member(ops, l)
    ensures t < |ops|
  {
    var n := |ops| - 1;
    if Member(ops[..n], l) then Joined(ops[..n], l) else n
  }

  ghost predicate InJoinOrder<L>(ops: seq<Op<L>>, list: seq<L>) {
    && (forall i :: 0 <= i < |list| ==> Member(ops, list[i]))
    && (forall i, j :: 0 <= i < j < |list| ==> Joined(ops, list[i]) < Joined(ops, list[j]))
  }

  /** Over any history the list holds exactly the members, each once, in the order their membership began. */
  lemma {:induction false} RosterIsMembersInJoinOrder<L>(ops: seq<Op<L>>)
    ensures Distinct(Roster(ops))
    ensures forall l :: l in Roster(ops) <==> Member(ops, l)
    ensures InJoinOrder(ops, Roster(ops))
  {
    if ops != [] {
      var n := |ops| - 1;
      var before, op := Roster(ops[..n]), ops[n];
      RosterIsMembersInJoinOrder(ops[..n]);
      ApplyMembers(before, op);
      match op {
        case Register(l) => RegisterOrder(ops[..n], l, before);
        case Unregister(l) => UnregisterOrder(ops[..n], l, before);
      }
      assert ops == ops[..n] + [op];
    }
  }

  lemma ApplyMembers<L>(before: seq<L>, op: Op<L>)
    requires Distinct(before)
    ensures Distinct(Apply(before, op))
    ensures forall l :: l in Apply(before, op) <==> if l == op.sink then op.Register? else l in before
  {
    if op.Unregister? {
      var i := IndexOf(before, op.sink);
      if i < |before| {
        RemovedOnce(before, i);
      } else {
        assert before[..i] == before;
      }
    }
  }

  /** An operation that does not remove `l` leaves its membership as it was. */
  lemma StillMember<L>(ops: seq<Op<L>>, op: Op<L>, l: L)
    requires Member(ops, l) && op != Op.Unregister(l)
    ensures Member(ops + [op], l) && Joined(ops + [op], l) == Joined(ops, l)
  {
    assert (ops + [op])[..|ops|] == ops;
  }

  lemma NewMember<L>(ops: seq<Op<L>>, l: L)
    requires !Member(ops, l)
    ensures Member(ops + [Op.Register(l)], l) && Joined(ops + [Op.Register(l)], l) == |ops|
  {
    assert (ops + [Op.Register(l)])[..|ops|] == ops;
  }

  lemma StillInOrder<L>(ops: seq<Op<L>>, op: Op<L>, list: seq<L>)
    requires InJoinOrder(ops, list) && forall i :: 0 <= i < |list| ==> op != Op.Unregister(list[i])
    ensures InJoinOrder(ops + [op], list)
  {
    forall i | 0 <= i < |list|
      ensures Member(ops + [op], list[i]) && Joined(ops + [op], list[i]) == Joined(ops, list[i])
    {
      StillMember(ops, op, list[i]);
    }
  }

  lemma RemovalKeepsOrder<L>(ops: seq<Op<L>>, list: seq<L>, i: nat)
    requires InJoinOrder(ops, list) && i < |list|
    ensures InJoinOrder(ops, list[..i] + list[i + 1..])
  {
    var r := list[..i] + list[i + 1..];
    assert forall k :: 0 <= k < |r| ==> r[k] == list[if k < i then k else k + 1];
  }

  lemma RegisterOrder<L>(ops: seq<Op<L>>, l: L, before: seq<L>)
    requires InJoinOrder(ops, before) && (Member(ops, l) <==> l in before)
    ensures InJoinOrder(ops + [Op.Register(l)], Apply(before, Op.Register(l)))
  {
    StillInOrder(ops, Op.Register(l), before);
    if l !in before {
      NewMember(ops, l);
      forall i | 0 <= i < |before| ensures Joined(ops + [Op.Register(l)], before[i]) < |ops| {
        StillMember(ops, Op.Register(l), before[i]);
      }
    }
  }

  lemma UnregisterOrder<L>(ops: seq<Op<L>>, l: L, before: seq<L>)
    requires Distinct(before) && InJoinOrder(ops, before)
    ensures InJoinOrder(ops + [Op.Unregister(l)], Apply(before, Op.Unregister(l)))
  {
    var now := Apply(before, Op.Unregister(l));
    ApplyMembers(before, Op.Unregister(l));
    var i := IndexOf(before, l);
    if i < |before| {
      RemovalKeepsOrder(ops, before, i);
    }
    assert forall k :: 0 <= k < |now| ==> now[k] in now;
    StillInOrder(ops, Op.Unregister(l), now);
  }

  /** What one dispatch calls; there is no branch for `UpdatePowerState`. */
  function CallsTo<L>(list: seq<L>, event: Event): (calls: seq<Callback<L>>)
    ensures |calls| == if event == UpdatePowerState then 0 else |list|
    ensures forall i :: 0 <= i < |calls| ==> calls[i] == Callback(list[i], event)
  {
    if event == UpdatePowerState then [] else seq(|list|, i requires 0 <= i < |list| => Callback(list[i], event))
  }

  /** Dispatching after any history calls every member exactly once, earlier members first. */
  lemma FanOutExactlyOnce<L>(ops: seq<Op<L>>, event: Event, l: L)
    ensures var calls := CallsTo(Roster(ops), event);
            && multiset(calls)[Callback(l, event)] == (if event != UpdatePowerState && Member(ops, l) then 1 else 0)
            && forall i, j :: 0 <= i < j < |calls| ==>
                 && Member(ops, calls[i].sink) && Member(ops, calls[j].sink)
                 && Joined(ops, calls[i].sink) < Joined(ops, calls[j].sink)
  {
    var calls := CallsTo(Roster(ops), event);
    RosterIsMembersInJoinOrder(ops);
    CountInDistinct(calls, Callback(l, event));
    if event != UpdatePowerState {
      if Member(ops, l) {
        var k :| 0 <= k < |calls| && Roster(ops)[k] == l;
        assert calls[k] == Callback(l, event);
      } else {
        assert forall k :: 0 <= k < |calls| ==> Roster(ops)[k] in Roster(ops);
      }
    }
  }

  lemma RosterSnoc<L>(ops: seq<Op<L>>, op: Op<L>)
    ensures Roster(ops + [op]) == Apply(Roster(ops), op)
  {
    assert (ops + [op])[..|ops|] == ops;
  }

  // ----- the list itself -----

  class NotificationList<L(==)> {
    var list: seq<L>
    /** The references taken with AddRef and not yet given back with Release. */
    ghost var references: multiset<L>
    /** Every Register and Unregister so far. */
    ghost var ops: seq<Op<L>>

    ghost predicate Valid()
      reads this
    {
      && Distinct(list)
      && references == multiset(list)
      && list == Roster(ops)
    }

    constructor ()
      ensures Valid() && ops == []
    {
      list, references, ops := [], multiset{}, [];
    }

    /** A sink that is already there is not added again. */
    method Register(notification: L)
      requires Valid()
      modifies this
      ensures Valid() && ops == old(ops) + [Op.Register(notification)]
      ensures list == Apply(old(list), Op.Register(notification))
    {
      RosterSnoc(ops, Op.Register(notification));
      if notification !in list {
        list := list + [notification];
        references := references + multiset{notification};
      }
      ops := ops + [Op.Register(notification)];
    }

    /** `found` is ERROR_NONE, otherwise ERROR_GENERAL. */
    method Unregister(notification: L) returns (found: bool)
      requires Valid()
      modifies this
      ensures Valid() && ops == old(ops) + [Op.Unregister(notification)]
      ensures list == Apply(old(list), Op.Unregister(notification))
      ensures found <==> notification in old(list)
      ensures references[notification] == 0
    {
      RosterSnoc(ops, Op.Unregister(notification));
      var i := IndexOf(list, notification);
      found := i < |list|;
      if found {
        RemovedOnce(list, i);
        references := references - multiset{notification};
        list := list[..i] + list[i + 1..];
      } else {
        assert list[..i] == list;
      }
      ops := ops + [Op.Unregister(notification)];
    }

    /** The calls made, in order: whatever came before, every current member is called exactly once and nobody else. */
    method Dispatch(event: Event) returns (calls: seq<Callback<L>>)
      requires Valid()
      ensures calls == CallsTo(Roster(ops), event)
      ensures forall l: L ::
                multiset(calls)[Callback(l, event)] == if event != UpdatePowerState && Member(ops, l) then 1 else 0
    {
      calls := [];
      var index := 0;
      while index < |list|
        invariant index <= |list|
        invariant calls == CallsTo(list[..index], event)
      {
        if event != UpdatePowerState {
          calls := calls + [Callback(list[index], event)];
        }
        index := index + 1;
      }
      assert list[..index] == list;
      forall l: L
        ensures multiset(calls)[Callback(l, event)] == if event != UpdatePowerState && Member(ops, l) then 1 else 0
      {
        FanOutExactlyOnce(ops, event, l);
      }
    }
  }
}
