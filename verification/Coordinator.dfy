/** Consumer groups and the round-robin division of partitions among their
    members: broker/src/coordinator.rs. */
module Coordinator {
  import opened Bytes

  datatype PartitionAssignment = PartitionAssignment(topic: string, partition: u32)

  datatype GroupMember = GroupMember(topics: seq<string>, lastHeartbeat: nat, assignments: seq<PartitionAssignment>)

  type Members = map<string, GroupMember>

  type PartitionCounts = map<string, u32>

  /** A group as a value. `counts` remembers the partition counts its last
      rebalance went by. */
  datatype Group = Group(members: Members, generation: nat, counts: PartitionCounts)

  // ------------------------------------------------------------ specification

  function CombinedTopics(members: Members): set<string> {
    set id, topic | id in members && topic in members[id].topics :: topic
  }

  /** A partition of one of the topics that the broker knows to exist. */
  predicate Known(topics: set<string>, counts: PartitionCounts, a: PartitionAssignment) {
    a.topic in topics && a.topic in counts && a.partition < counts[a.topic]
  }

  predicate Holds(members: Members, id: string, a: PartitionAssignment) {
    id in members && a in members[id].assignments
  }

  predicate Slot(members: Members, id: string, i: nat, a: PartitionAssignment) {
    id in members && i < |members[id].assignments| && members[id].assignments[i] == a
  }

  /** No partition is handed out twice, to one member or to two. */
  ghost predicate Exclusive(members: Members) {
    forall a, id, i, jd, j :: Slot(members, id, i, a) && Slot(members, jd, j, a) ==> id == jd && i == j
  }

  ghost predicate Covers(members: Members, topics: set<string>, counts: PartitionCounts) {
    forall a :: Known(topics, counts, a) <==> exists id :: Holds(members, id, a)
  }

  ghost predicate Even(members: Members) {
    forall id, jd :: id in members && jd in members ==>
      |members[id].assignments| <= |members[jd].assignments| + 1
  }

  /** The division is right for these members and these partition counts. */
  ghost predicate Fair(members: Members, counts: PartitionCounts) {
    Exclusive(members) && Covers(members, CombinedTopics(members), counts) && Even(members)
  }

  /** The same members, apart from what is assigned to them. */
  ghost predicate SameMembers(members: Members, members': Members) {
    && members'.Keys == members.Keys
    && forall id {:trigger members'[id]} :: id in members ==>
         members'[id].topics == members[id].topics && members'[id].lastHeartbeat == members[id].lastHeartbeat
  }

  /** What a rebalance does to a group. With no members it only counts. */
  ghost predicate Rebalanced(g: Group, counts: PartitionCounts, g': Group) {
    && g'.generation == g.generation + 1
    && if g.members == map[] then g'.members == g.members
       else g'.counts == counts && SameMembers(g.members, g'.members) && Fair(g'.members, counts)
  }

  datatype GroupError = GroupNotFound(group: string) | ConsumerNotFound(member: string)

  function Expired(members: Members, timeout: nat, now: nat): set<string> {
    set id | id in members && now > members[id].lastHeartbeat + timeout
  }

  /** All groups of a coordinator, as a value. */
  type Table = map<string, Group>

  /** No group is empty and every division is right. */
  ghost predicate Healthy(t: Table) {
    forall k :: k in t ==> t[k].members != map[] && Fair(t[k].members, t[k].counts)
  }

  function Existing(t: Table, groupId: string): Group {
    if groupId in t then t[groupId] else Group(map[], 0, map[])
  }

  /** The group as a join leaves it just before its rebalance. */
  function Joining(t: Table, groupId: string, memberId: string, topics: seq<string>, now: nat): Group {
    var g := Existing(t, groupId);
    g.(members := g.members[memberId := GroupMember(topics, now, [])])
  }

  ghost predicate Joined(t: Table, counts: PartitionCounts, groupId: string, memberId: string, topics: seq<string>,
                         now: nat, t': Table) {
    && groupId in t' && t' == t[groupId := t'[groupId]]
    && Rebalanced(Joining(t, groupId, memberId, topics, now), counts, t'[groupId])
  }

  function Leaving(g: Group, gone: set<string>): Group {
    g.(members := g.members - gone)
  }

  predicate IsMember(t: Table, groupId: string, memberId: string) {
    groupId in t && memberId in t[groupId].members
  }

  ghost predicate Left(t: Table, counts: PartitionCounts, groupId: string, memberId: string, t': Table) {
    if !IsMember(t, groupId, memberId) then t' == t
    else
      var rest := Leaving(t[groupId], {memberId});
      if rest.members == map[] then t' == t - {groupId}
      else groupId in t' && t' == t[groupId := t'[groupId]] && Rebalanced(rest, counts, t'[groupId])
  }

  function Beating(g: Group, memberId: string, now: nat): Group
    requires memberId in g.members
  {
    g.(members := g.members[memberId := g.members[memberId].(lastHeartbeat := now)])
  }

  ghost predicate Beat(t: Table, groupId: string, memberId: string, now: nat, t': Table) {
    t' == if IsMember(t, groupId, memberId) then t[groupId := Beating(t[groupId], memberId, now)] else t
  }

  /** What one sweep for expired members makes of the table. */
  ghost predicate Swept(t: Table, counts: PartitionCounts, timeout: nat, clock: string -> nat, t': Table) {
    && (forall k :: k in t' <==> k in t && Leaving(t[k], Expired(t[k].members, timeout, clock(k))).members != map[])
    && forall k {:trigger t'[k]} :: k in t' ==>
         var dead := Expired(t[k].members, timeout, clock(k));
         if dead == {} then t'[k] == t[k] else Rebalanced(Leaving(t[k], dead), counts, t'[k])
  }

  // ------------------------------------------------------------ the rebalance

  ghost predicate Distinct<T>(s: seq<T>) {
    forall i, j :: 0 <= i < j < |s| ==> s[i] != s[j]
  }

  /** All partitions of the topics, topics in any order. */
  method ListPartitions(topics: set<string>, counts: PartitionCounts) returns (parts: seq<PartitionAssignment>)
    ensures Distinct(parts) && forall a :: a in parts <==> Known(topics, counts, a)
  {
    parts := [];
    var rest := topics;
    while rest != {}
      invariant rest <= topics && Distinct(parts)
      invariant forall a :: a in parts <==> Known(topics - rest, counts, a)
      decreases rest
    {
      var topic :| topic in rest;
      ghost var done := topics - rest;
      rest := rest - {topic};
      if topic in counts {
        for p := 0 to counts[topic]
          invariant Distinct(parts)
          invariant forall a :: a in parts <==> Known(done, counts, a) || (a.topic == topic && a.partition < p)
        {
          parts := parts + [PartitionAssignment(topic, p)];
        }
      }
    }
  }

  /** The keys of a map, in any order. */
  method ListKeys(members: Members) returns (ids: seq<string>)
    ensures Distinct(ids) && forall id :: id in ids <==> id in members
    ensures |ids| == |members|
  {
    ids := [];
    var rest := members.Keys;
    while rest != {}
      invariant rest <= members.Keys && Distinct(ids)
      invariant forall id :: id in ids <==> id in members.Keys - rest
      invariant |ids| + |rest| == |members|
      decreases rest
    {
      var id :| id in rest;
      assert id !in ids;
      ids := ids + [id];
      rest := rest - {id};
    }
  }

  /** The first |dealt| partitions have been dealt out, q whole rounds and r
      members more. */
  ghost predicate Dealt(before: Members, ids: seq<string>, members: Members, dealt: seq<PartitionAssignment>, q: nat, r: nat) {
    && SameMembers(before, members)
    && Exclusive(members)
    && (forall a :: a in dealt <==> exists id :: Holds(members, id, a))
    && r < |ids| && |dealt| == q * |ids| + r
    && (forall k :: 0 <= k < |ids| ==>
          ids[k] in members && |members[ids[k]].assignments| == if k < r then q + 1 else q)
  }

  function Give(members: Members, id: string, a: PartitionAssignment): Members
    requires id in members
  {
    members[id := members[id].(assignments := members[id].assignments + [a])]
  }

  lemma GivenSlots(members: Members, id: string, a: PartitionAssignment)
    requires id in members
    ensures forall jd, j, b :: Slot(Give(members, id, a), jd, j, b) <==>
              Slot(members, jd, j, b) || (jd == id && j == |members[id].assignments| && b == a)
  {
  }

  lemma GiveKeepsExclusive(members: Members, id: string, a: PartitionAssignment)
    requires id in members && Exclusive(members)
    requires forall jd :: !Holds(members, jd, a)
    ensures Exclusive(Give(members, id, a))
  {
    GivenSlots(members, id, a);
    forall jd, j | Slot(members, jd, j, a)
      ensures false
    {
      assert Holds(members, jd, a);
    }
  }

  lemma GiveCovers(members: Members, id: string, a: PartitionAssignment, b: PartitionAssignment)
    requires id in members
    ensures (exists jd :: Holds(Give(members, id, a), jd, b)) <==> b == a || exists jd :: Holds(members, jd, b)
  {
    var members' := Give(members, id, a);
    assert forall jd :: jd != id ==> Holds(members', jd, b) == Holds(members, jd, b);
    assert Holds(members', id, b) == (Holds(members, id, b) || b == a);
  }

  lemma DealStep(before: Members, ids: seq<string>, members: Members, dealt: seq<PartitionAssignment>, q: nat, r: nat,
                 a: PartitionAssignment)
    requires Dealt(before, ids, members, dealt, q, r) && Distinct(ids)
    requires a !in dealt
    ensures if r + 1 < |ids| then Dealt(before, ids, Give(members, ids[r], a), dealt + [a], q, r + 1)
            else Dealt(before, ids, Give(members, ids[r], a), dealt + [a], q + 1, 0)
  {
    forall b
      ensures b in dealt + [a] <==> exists jd :: Holds(Give(members, ids[r], a), jd, b)
    {
      GiveCovers(members, ids[r], a, b);
    }
    GiveKeepsExclusive(members, ids[r], a);
    assert (q + 1) * |ids| == q * |ids| + |ids|;
    forall k | 0 <= k < |ids|
      ensures Give(members, ids[r], a)[ids[k]] == if k == r then Give(members, ids[r], a)[ids[r]] else members[ids[k]]
    {
      assert k != r ==> ids[k] != ids[r];
    }
  }

  function Cleared(members: Members): Members {
    map id | id in members :: members[id].(assignments := [])
  }

  lemma DealStart(before: Members, ids: seq<string>)
    requires |ids| > 0 && forall id :: id in ids <==> id in before
    ensures Dealt(before, ids, Cleared(before), [], 0, 0)
  {
    forall k | 0 <= k < |ids|
      ensures ids[k] in before
    {
      assert ids[k] in ids;
    }
  }

  /** Once everything is dealt, the division is fair. */
  lemma DealIsFair(before: Members, ids: seq<string>, members: Members, parts: seq<PartitionAssignment>, q: nat, r: nat,
                   counts: PartitionCounts)
    requires Dealt(before, ids, members, parts, q, r)
    requires forall id :: id in ids <==> id in before
    requires forall a :: a in parts <==> Known(CombinedTopics(before), counts, a)
    ensures Fair(members, counts)
  {
    assert CombinedTopics(members) == CombinedTopics(before);
    forall id, jd | id in members && jd in members
      ensures |members[id].assignments| <= |members[jd].assignments| + 1
    {
      assert id in ids && jd in ids;
    }
  }

  class ConsumerGroup {
    const groupId: string
    var members: Members
    var generation: nat
    ghost var counts: PartitionCounts

    ghost function View(): Group
      reads this
    {
      Group(members, generation, counts)
    }

    constructor (groupId: string)
      ensures View() == Group(map[], 0, map[]) && this.groupId == groupId
    {
      this.groupId := groupId;
      members, generation, counts := map[], 0, map[];
    }

    method AddMember(memberId: string, member: GroupMember)
      modifies this`members
      ensures members == old(members)[memberId := member]
    {
      members := members[memberId := member];
    }

    method RemoveMember(memberId: string) returns (removed: bool)
      modifies this`members
      ensures removed == (memberId in old(members)) && members == old(members) - {memberId}
    {
      removed := memberId in members;
      members := members - {memberId};
    }

    method Heartbeat(memberId: string, now: nat) returns (res: Result<(), GroupError>)
      modifies this`members
      ensures memberId !in old(members) ==> res == Err(ConsumerNotFound(memberId)) && members == old(members)
      ensures memberId in old(members) ==>
                res == Ok(()) && members == old(members)[memberId := old(members)[memberId].(lastHeartbeat := now)]
    {
      if memberId !in members {
        return Err(ConsumerNotFound(memberId));
      }
      members := members[memberId := members[memberId].(lastHeartbeat := now)];
      return Ok(());
    }

    /** The members whose last heartbeat is more than the timeout ago, in any order. */
    method DeadMembers(timeout: nat, now: nat) returns (dead: seq<string>)
      ensures forall id :: id in dead <==> id in Expired(members, timeout, now)
    {
      dead := [];
      var rest := members.Keys;
      while rest != {}
        invariant rest <= members.Keys
        invariant forall id :: id in dead <==> id in Expired(members, timeout, now) && id !in rest
        decreases rest
      {
        var id :| id in rest;
        if now > members[id].lastHeartbeat + timeout {
          dead := dead + [id];
        }
        rest := rest - {id};
      }
    }

    method CollectTopics() returns (topics: set<string>)
      ensures topics == CombinedTopics(members)
    {
      topics := {};
      var rest := members.Keys;
      while rest != {}
        invariant rest <= members.Keys
        invariant topics == set id, topic | id in members.Keys - rest && topic in members[id].topics :: topic
        decreases rest
      {
        var id :| id in rest;
        topics := topics + set topic | topic in members[id].topics;
        rest := rest - {id};
      }
    }

    /** Clears all assignments and deals the partitions out in turn. */
    method Deal(ids: seq<string>, parts: seq<PartitionAssignment>, ghost counts: PartitionCounts)
      requires |ids| > 0 && Distinct(ids) && Distinct(parts)
      requires forall id :: id in ids <==> id in members
      requires forall a :: a in parts <==> Known(CombinedTopics(members), counts, a)
      modifies this`members
      ensures SameMembers(old(members), members) && Fair(members, counts)
    {
      ghost var before := members;
      members := Cleared(members);
      ghost var q, r := 0, 0;
      DealStart(before, ids);
      assert parts[..0] == [];
      for idx := 0 to |parts|
        invariant Dealt(before, ids, members, parts[..idx], q, r)
      {
        QuotientIs(idx, |ids|, q, r);
        var id := ids[idx % |ids|];
        DealStep(before, ids, members, parts[..idx], q, r, parts[idx]);
        members := Give(members, id, parts[idx]);
        q, r := if r + 1 < |ids| then q else q + 1, if r + 1 < |ids| then r + 1 else 0;
        assert parts[..idx + 1] == parts[..idx] + [parts[idx]];
      }
      assert parts[..|parts|] == parts;
      DealIsFair(before, ids, members, parts, q, r, counts);
    }

    method Rebalance(topicPartitions: PartitionCounts)
      modifies this
      ensures Rebalanced(old(View()), topicPartitions, View())
    {
      generation := generation + 1;
      var topics := CollectTopics();
      var parts := ListPartitions(topics, topicPartitions);
      var ids := ListKeys(members);
      if |ids| == 0 {
        return;
      }
      Deal(ids, parts, topicPartitions);
      counts := topicPartitions;
    }
  }

  function Front(ids: seq<string>, i: nat): set<string>
    requires i <= |ids|
  {
    set id | id in ids[..i]
  }

  class GroupCoordinator {
    var groups: map<string, ConsumerGroup>
    var topicPartitions: PartitionCounts
    const heartbeatTimeout: nat
    ghost var table: Table

    /** Each group has its own object, and the table tells what they hold. */
    ghost predicate Valid()
      reads this, groups.Values
    {
      && table.Keys == groups.Keys
      && (forall k :: k in groups ==> groups[k].View() == table[k])
      && forall j, k :: j in groups && k in groups && j != k ==> groups[j] != groups[k]
    }

    constructor (heartbeatTimeout: nat)
      ensures Valid() && table == map[] && topicPartitions == map[] && this.heartbeatTimeout == heartbeatTimeout
    {
      groups, topicPartitions, table := map[], map[], map[];
      this.heartbeatTimeout := heartbeatTimeout;
    }

    method UpdateTopicPartitions(topic: string, count: u32)
      requires Valid()
      modifies this`topicPartitions
      ensures Valid() && topicPartitions == old(topicPartitions)[topic := count]
    {
      topicPartitions := topicPartitions[topic := count];
    }

    /** Gets the group, or creates it empty. */
    method GroupEntry(k: string)
      requires Valid()
      modifies this`groups, this`table
      ensures Valid() && fresh(groups.Values - old(groups.Values))
      ensures k in groups && table == old(table)[k := Existing(old(table), k)]
    {
      if k !in groups {
        var group := new ConsumerGroup(k);
        groups := groups[k := group];
        table := table[k := Group(map[], 0, map[])];
      }
    }

    method AddMember(k: string, memberId: string, member: GroupMember)
      requires Valid() && k in groups
      modifies this`table, groups[k]
      ensures Valid()
      ensures var g := old(table)[k];
              table == old(table)[k := g.(members := g.members[memberId := member])]
    {
      groups[k].AddMember(memberId, member);
      table := table[k := groups[k].View()];
    }

    method RemoveMember(k: string, memberId: string) returns (removed: bool)
      requires Valid() && k in groups
      modifies this`table, groups[k]
      ensures Valid() && removed == (memberId in old(table)[k].members)
      ensures table == old(table)[k := Leaving(old(table)[k], {memberId})]
    {
      removed := groups[k].RemoveMember(memberId);
      table := table[k := groups[k].View()];
    }

    method RebalanceGroup(k: string)
      requires Valid() && k in groups
      modifies this`table, groups[k]
      ensures Valid() && k in table && table == old(table)[k := table[k]]
      ensures Rebalanced(old(table)[k], topicPartitions, table[k])
    {
      groups[k].Rebalance(topicPartitions);
      table := table[k := groups[k].View()];
    }

    method RemoveGroup(k: string)
      requires Valid()
      modifies this`groups, this`table
      ensures Valid() && groups == old(groups) - {k} && table == old(table) - {k}
    {
      groups, table := groups - {k}, table - {k};
    }

    /** uuid is the text of a fresh random identifier. */
    method JoinGroup(groupId: string, memberId: Option<string>, topics: seq<string>, uuid: string, now: nat)
      returns (id: string, assignments: seq<PartitionAssignment>)
      requires Valid() && |uuid| >= 8
      modifies this`groups, this`table, groups.Values
      ensures Valid()
      ensures id == if memberId.Some? then memberId.value else groupId + "-" + uuid[..8]
      ensures Joined(old(table), topicPartitions, groupId, id, topics, now, table)
      ensures IsMember(table, groupId, id) && assignments == table[groupId].members[id].assignments
    {
      id := if memberId.Some? then memberId.value else groupId + "-" + uuid[..8];
      GroupEntry(groupId);
      ghost var t1 := table;
      assert groups[groupId] in groups.Values;
      AddMember(groupId, id, GroupMember(topics, now, []));
      ghost var t2 := table;
      RebalanceGroup(groupId);
      JoinIsDone(old(table), topicPartitions, groupId, id, topics, now, t1, t2, table);
      assignments := groups[groupId].members[id].assignments;
    }

    method LeaveGroup(groupId: string, memberId: string) returns (res: Result<(), GroupError>)
      requires Valid()
      modifies this`groups, this`table, groups.Values
      ensures Valid() && Left(old(table), topicPartitions, groupId, memberId, table)
      ensures res == if IsMember(old(table), groupId, memberId) then Ok(())
                     else if groupId !in old(table) then Err(GroupNotFound(groupId))
                     else Err(ConsumerNotFound(memberId))
    {
      if groupId !in groups {
        return Err(GroupNotFound(groupId));
      }
      assert groups[groupId] in groups.Values;
      var removed := RemoveMember(groupId, memberId);
      ghost var t1 := table;
      if !removed {
        res := Err(ConsumerNotFound(memberId));
      } else {
        if groups[groupId].members != map[] {
          RebalanceGroup(groupId);
        } else {
          RemoveGroup(groupId);
        }
        res := Ok(());
      }
      LeaveIsDone(old(table), topicPartitions, groupId, memberId, t1, table);
    }

    method Heartbeat(groupId: string, memberId: string, now: nat) returns (res: Result<bool, GroupError>)
      requires Valid()
      modifies this`table, groups.Values
      ensures Valid() && Beat(old(table), groupId, memberId, now, table)
      ensures res == if IsMember(old(table), groupId, memberId) then Ok(false)
                     else if groupId !in old(table) then Err(GroupNotFound(groupId))
                     else Err(ConsumerNotFound(memberId))
    {
      if groupId !in groups {
        return Err(GroupNotFound(groupId));
      }
      assert groups[groupId] in groups.Values;
      var beat := groups[groupId].Heartbeat(memberId, now);
      if beat.Err? {
        return Err(beat.error);
      }
      table := table[groupId := groups[groupId].View()];
      return Ok(false);
    }

    /** The sweep of one group: its expired members go. */
    method Reap(k: string, now: nat) returns (reaped: bool)
      requires Valid() && k in groups
      modifies this`table, groups[k]
      ensures Valid()
      ensures var g := old(table)[k];
              var gone := Expired(g.members, heartbeatTimeout, now);
              table == old(table)[k := Leaving(g, gone)] && reaped == (gone != {})
    {
      ghost var g := table[k];
      ghost var gone := Expired(g.members, heartbeatTimeout, now);
      var group := groups[k];
      var dead := group.DeadMembers(heartbeatTimeout, now);
      for i := 0 to |dead|
        invariant group.View() == Leaving(g, Front(dead, i)) && table == old(table)
      {
        var _ := group.RemoveMember(dead[i]);
        assert Front(dead, i + 1) == Front(dead, i) + {dead[i]};
      }
      assert Front(dead, |dead|) == gone;
      if |dead| > 0 {
        assert dead[0] in gone;
      }
      table := table[k := group.View()];
      return |dead| > 0;
    }

    /** check_heartbeats, first loop: clock gives the time at which each group
        is looked at, in any order. */
    method ReapAll(clock: string -> nat) returns (reaped: seq<string>)
      requires Valid()
      modifies this`table, groups.Values
      ensures Valid() && Reaping(old(table), heartbeatTimeout, clock, {}, reaped, table)
    {
      reaped := [];
      var rest := groups.Keys;
      ghost var t0 := table;
      while rest != {}
        invariant Valid() && Reaping(t0, heartbeatTimeout, clock, rest, reaped, table)
        decreases rest
      {
        var k :| k in rest;
        ghost var t := table;
        assert groups[k] in groups.Values;
        var any := Reap(k, clock(k));
        ReapingStep(t0, heartbeatTimeout, clock, rest, reaped, t, k, any, table);
        reaped := if any then reaped + [k] else reaped;
        rest := rest - {k};
      }
    }

    /** check_heartbeats, second loop. */
    method RebalanceAll(list: seq<string>)
      requires Valid() && Distinct(list) && forall k :: k in list ==> k in groups
      modifies this`table, groups.Values
      ensures Valid() && Rebalancing(old(table), topicPartitions, list, |list|, table)
    {
      ghost var t1 := table;
      for i := 0 to |list|
        invariant Valid() && Rebalancing(t1, topicPartitions, list, i, table)
      {
        var k := list[i];
        ghost var t := table;
        assert k in groups && groups[k] in groups.Values;
        if groups[k].members != map[] {
          RebalanceGroup(k);
        }
        RebalancingStep(t1, topicPartitions, list, i, t, table);
      }
    }

    method RetainNonEmpty()
      requires Valid()
      modifies this`groups, this`table
      ensures Valid() && table == NonEmpty(old(table))
    {
      groups := map k | k in groups && groups[k].members != map[] :: groups[k];
      table := NonEmpty(table);
    }

    method CheckHeartbeats(clock: string -> nat)
      requires Valid()
      modifies this`groups, this`table, groups.Values
      ensures Valid() && Swept(old(table), topicPartitions, heartbeatTimeout, clock, table)
    {
      var reaped := ReapAll(clock);
      ghost var t1 := table;
      RebalanceAll(reaped);
      ghost var t2 := table;
      RetainNonEmpty();
      SweepIsDone(old(table), topicPartitions, heartbeatTimeout, clock, reaped, t1, t2);
    }
  }

  function NonEmpty(t: Table): Table {
    map k | k in t && t[k].members != map[] :: t[k]
  }

  lemma JoinIsDone(t: Table, counts: PartitionCounts, k: string, id: string, topics: seq<string>, now: nat,
                   t1: Table, t2: Table, t3: Table)
    requires t1 == t[k := Existing(t, k)]
    requires t2 == t1[k := t1[k].(members := t1[k].members[id := GroupMember(topics, now, [])])]
    requires k in t3 && t3 == t2[k := t3[k]] && Rebalanced(t2[k], counts, t3[k])
    ensures Joined(t, counts, k, id, topics, now, t3) && IsMember(t3, k, id)
  {
    assert t2[k] == Joining(t, k, id, topics, now);
    assert t3 == t[k := t3[k]];
    assert id in t2[k].members && t2[k].members != map[];
  }

  lemma LeaveIsDone(t: Table, counts: PartitionCounts, k: string, id: string, t1: Table, t2: Table)
    requires k in t && t1 == t[k := Leaving(t[k], {id})]
    requires if id !in t[k].members then t2 == t1
             else if t1[k].members == map[] then t2 == t1 - {k}
             else k in t2 && t2 == t1[k := t2[k]] && Rebalanced(t1[k], counts, t2[k])
    ensures Left(t, counts, k, id, t2)
  {
    if id !in t[k].members {
      assert Leaving(t[k], {id}) == t[k];
      assert t1 == t;
    } else if t1[k].members == map[] {
      assert t2 == t - {k};
    } else {
      assert t2 == t[k := t2[k]];
    }
  }

  /** The first loop of a sweep, with the groups in `rest` still to look at. */
  ghost predicate Reaping(t0: Table, timeout: nat, clock: string -> nat, rest: set<string>, reaped: seq<string>, t: Table) {
    && rest <= t0.Keys && t.Keys == t0.Keys && Distinct(reaped)
    && (forall k {:trigger t[k]} :: k in t0 ==>
          t[k] == if k in rest then t0[k] else Leaving(t0[k], Expired(t0[k].members, timeout, clock(k))))
    && (forall k :: k in reaped <==> k in t0 && k !in rest && Expired(t0[k].members, timeout, clock(k)) != {})
  }

  lemma ReapingStep(t0: Table, timeout: nat, clock: string -> nat, rest: set<string>, reaped: seq<string>, t: Table,
                    k: string, any: bool, t': Table)
    requires Reaping(t0, timeout, clock, rest, reaped, t) && k in rest
    requires var gone := Expired(t[k].members, timeout, clock(k));
             t' == t[k := Leaving(t[k], gone)] && any == (gone != {})
    ensures Reaping(t0, timeout, clock, rest - {k}, if any then reaped + [k] else reaped, t')
  {
    assert t[k] == t0[k] && k !in reaped;
  }

  /** The second loop, with the first n groups of the list taken care of. */
  ghost predicate Rebalancing(t1: Table, counts: PartitionCounts, list: seq<string>, n: nat, t: Table) {
    && n <= |list| && t.Keys == t1.Keys
    && forall k {:trigger t[k]} :: k in t1 ==>
         if k in list[..n] && t1[k].members != map[] then Rebalanced(t1[k], counts, t[k]) else t[k] == t1[k]
  }

  lemma RebalancingStep(t1: Table, counts: PartitionCounts, list: seq<string>, i: nat, t: Table, t': Table)
    requires i < |list| && Distinct(list) && list[i] in t1
    requires Rebalancing(t1, counts, list, i, t)
    requires if t[list[i]].members == map[] then t' == t
             else list[i] in t' && t' == t[list[i] := t'[list[i]]] && Rebalanced(t[list[i]], counts, t'[list[i]])
    ensures Rebalancing(t1, counts, list, i + 1, t')
  {
    assert list[i] !in list[..i];
    assert forall k :: k in list[..i + 1] <==> k in list[..i] || k == list[i];
  }

  lemma SweepIsDone(t0: Table, counts: PartitionCounts, timeout: nat, clock: string -> nat, reaped: seq<string>,
                    t1: Table, t2: Table)
    requires Reaping(t0, timeout, clock, {}, reaped, t1) && Rebalancing(t1, counts, reaped, |reaped|, t2)
    ensures Swept(t0, counts, timeout, clock, NonEmpty(t2))
  {
    assert reaped[..|reaped|] == reaped;
    forall k | k in t0
      ensures t2[k].members == map[] <==> t1[k].members == map[]
      ensures Expired(t0[k].members, timeout, clock(k)) == {} ==> t1[k] == t0[k] && t2[k] == t0[k]
      ensures Expired(t0[k].members, timeout, clock(k)) != {} && t1[k].members != map[] ==> Rebalanced(t1[k], counts, t2[k])
    {
      RebalancedKeepsMembers(t1[k], counts, t2[k]);
      if Expired(t0[k].members, timeout, clock(k)) == {} {
        assert Leaving(t0[k], {}) == t0[k];
      }
    }
  }

  lemma RebalancedKeepsMembers(g: Group, counts: PartitionCounts, g': Group)
    ensures Rebalanced(g, counts, g') ==> (g'.members == map[] <==> g.members == map[])
  {
    if Rebalanced(g, counts, g') && g.members != map[] {
      var id :| id in g.members;
      assert id in g'.members;
    }
  }

  // --------------------------------------------------------------------- runs

  datatype State = State(table: Table, counts: PartitionCounts)

  datatype Event =
    | Join(group: string, member: string, topics: seq<string>, now: nat)
    | Leave(group: string, member: string)
    | Alive(group: string, member: string, now: nat)
    | Sweep(clock: string -> nat)
    | Partitions(topic: string, count: u32)

  ghost predicate Step(s: State, timeout: nat, e: Event, s': State) {
    match e
    case Join(group, member, topics, now) =>
      s'.counts == s.counts && Joined(s.table, s.counts, group, member, topics, now, s'.table)
    case Leave(group, member) => s'.counts == s.counts && Left(s.table, s.counts, group, member, s'.table)
    case Alive(group, member, now) => s'.counts == s.counts && Beat(s.table, group, member, now, s'.table)
    case Sweep(clock) => s'.counts == s.counts && Swept(s.table, s.counts, timeout, clock, s'.table)
    case Partitions(topic, count) => s' == s.(counts := s.counts[topic := count])
  }

  ghost predicate Run(states: seq<State>, timeout: nat, events: seq<Event>) {
    && |states| == |events| + 1 && states[0] == State(map[], map[])
    && forall i :: 0 <= i < |events| ==> Step(states[i], timeout, events[i], states[i + 1])
  }

  lemma HeartbeatKeepsFair(g: Group, id: string, now: nat)
    requires id in g.members && Fair(g.members, g.counts)
    ensures Fair(Beating(g, id, now).members, g.counts)
  {
    var before, after := g.members, Beating(g, id, now).members;
    assert forall jd :: jd in before ==> after[jd].topics == before[jd].topics;
    assert CombinedTopics(after) == CombinedTopics(before);
    assert forall a, jd :: Holds(after, jd, a) == Holds(before, jd, a);
    assert forall jd, i, a :: Slot(after, jd, i, a) == Slot(before, jd, i, a);
    assert forall jd :: jd in before ==> after[jd].assignments == before[jd].assignments;
  }

  lemma SweepKeepsHealthy(t: Table, counts: PartitionCounts, timeout: nat, clock: string -> nat, t': Table)
    requires Healthy(t) && Swept(t, counts, timeout, clock, t')
    ensures Healthy(t')
  {
    forall k | k in t'
      ensures t'[k].members != map[] && Fair(t'[k].members, t'[k].counts)
    {
      var dead := Expired(t[k].members, timeout, clock(k));
      if dead != {} {
        RebalancedKeepsMembers(Leaving(t[k], dead), counts, t'[k]);
      }
    }
  }

  lemma StepKeepsHealthy(s: State, timeout: nat, e: Event, s': State)
    requires Healthy(s.table) && Step(s, timeout, e, s')
    ensures Healthy(s'.table)
  {
    match e
    case Join(group, member, topics, now) =>
      var g := Joining(s.table, group, member, topics, now);
      assert member in g.members;
      RebalancedKeepsMembers(g, s.counts, s'.table[group]);
    case Leave(group, member) =>
      if IsMember(s.table, group, member) && group in s'.table {
        RebalancedKeepsMembers(Leaving(s.table[group], {member}), s.counts, s'.table[group]);
      }
    case Alive(group, member, now) =>
      if IsMember(s.table, group, member) {
        HeartbeatKeepsFair(s.table[group], member, now);
        assert member in Beating(s.table[group], member, now).members;
      }
    case Sweep(clock) =>
      SweepKeepsHealthy(s.table, s.counts, timeout, clock, s'.table);
    case Partitions(_, _) =>
  }

  /** After any joins, leaves, heartbeats, sweeps and topic changes, for every
      hash order, no group is empty, and each known partition of the members'
      topics is with exactly one member, loads one apart at most. */
  lemma {:induction false} ReachableIsHealthy(states: seq<State>, timeout: nat, events: seq<Event>, i: nat)
    requires Run(states, timeout, events) && i < |states|
    ensures Healthy(states[i].table)
  {
    if i > 0 {
      ReachableIsHealthy(states, timeout, events, i - 1);
      assert Step(states[i - 1], timeout, events[i - 1], states[i]);
      StepKeepsHealthy(states[i - 1], timeout, events[i - 1], states[i]);
    }
  }

  /** Who is in a group and what each member has. */
  function Division(g: Group): map<string, seq<PartitionAssignment>> {
    map id | id in g.members :: g.members[id].assignments
  }

  /** The generation never goes back while a group lives, and a step that
      leaves it alone changed neither the members nor their assignments. */
  lemma GenerationMarksChange(s: State, timeout: nat, e: Event, s': State, k: string)
    requires Step(s, timeout, e, s') && k in s.table && k in s'.table
    ensures s.table[k].generation <= s'.table[k].generation <= s.table[k].generation + 1
    ensures s.table[k].generation == s'.table[k].generation ==> Division(s'.table[k]) == Division(s.table[k])
  {
    if e.Sweep? {
      assert Expired(s.table[k].members, timeout, e.clock(k)) == {} ==> s'.table[k] == s.table[k];
    }
  }

  // ------------------------------------------------- who is in a group, and when

  /** What each event does to one member's place: a join brings it in, a leave
      takes it out, and a sweep does when its group is looked at more than the
      timeout after it was last heard of. */
  lemma MemberAfter(s: State, timeout: nat, e: Event, s': State, g: string, id: string)
    requires Step(s, timeout, e, s')
    ensures IsMember(s'.table, g, id) <==>
            match e
            case Join(k, m, _, _) => (k == g && m == id) || IsMember(s.table, g, id)
            case Leave(k, m) => IsMember(s.table, g, id) && (k != g || m != id)
            case Sweep(clock) => IsMember(s.table, g, id) && clock(g) <= s.table[g].members[id].lastHeartbeat + timeout
            case _ => IsMember(s.table, g, id)
  {
    if e.Sweep? && g in s.table {
      SweptMember(s.table, s.counts, timeout, e.clock, s'.table, g, id);
    } else if e.Leave? && IsMember(s.table, g, id) && e.group == g && e.member != id {
      assert id in Leaving(s.table[g], {e.member}).members;
    }
  }

  lemma SweptMember(t: Table, counts: PartitionCounts, timeout: nat, clock: string -> nat, t': Table, g: string, id: string)
    requires Swept(t, counts, timeout, clock, t') && g in t
    ensures IsMember(t', g, id) <==> id in t[g].members && clock(g) <= t[g].members[id].lastHeartbeat + timeout
    ensures IsMember(t', g, id) ==>
              && t'[g].members[id].lastHeartbeat == t[g].members[id].lastHeartbeat
              && t'[g].members[id].topics == t[g].members[id].topics
  {
    var dead := Expired(t[g].members, timeout, clock(g));
    var rest := Leaving(t[g], dead);
    assert id in rest.members <==> id in t[g].members && clock(g) <= t[g].members[id].lastHeartbeat + timeout;
    if g in t' && dead != {} {
      assert Rebalanced(rest, counts, t'[g]);
    }
  }

  /** A member was last heard of when it joined or sent its last heartbeat, and
      has the topics of its last join. */
  lemma HeardAfter(s: State, timeout: nat, e: Event, s': State, g: string, id: string)
    requires Step(s, timeout, e, s') && IsMember(s'.table, g, id)
    ensures IsMember(s.table, g, id) || (e.Join? && e.group == g && e.member == id)
    ensures s'.table[g].members[id].lastHeartbeat
         == if (e.Join? || e.Alive?) && e.group == g && e.member == id then e.now else s.table[g].members[id].lastHeartbeat
    ensures s'.table[g].members[id].topics
         == if e.Join? && e.group == g && e.member == id then e.topics else s.table[g].members[id].topics
  {
    MemberAfter(s, timeout, e, s', g, id);
    if e.Sweep? {
      SweptMember(s.table, s.counts, timeout, e.clock, s'.table, g, id);
    }
  }

  /** The member joins, says it is alive, or leaves. */
  predicate Concerns(e: Event, g: string, id: string) {
    (e.Join? || e.Alive? || e.Leave?) && e.group == g && e.member == id
  }

  /** Every sweep strictly between events i and j looks at the group by `limit`. */
  ghost predicate NoSweepAfter(events: seq<Event>, i: nat, j: nat, g: string, limit: nat) {
    forall m :: i < m < j && m < |events| && events[m].Sweep? ==> events[m].clock(g) <= limit
  }

  lemma OneMoreSweep(events: seq<Event>, i: nat, j: nat, g: string, limit: nat)
    requires i < j - 1 < |events|
    ensures NoSweepAfter(events, i, j, g, limit) <==>
            NoSweepAfter(events, i, j - 1, g, limit) && (events[j - 1].Sweep? ==> events[j - 1].clock(g) <= limit)
  {
  }

  /** A member that joined, or sent a heartbeat, at time `now` and has not been
      heard of since is in the group if and only if no sweep has looked at the
      group later than the timeout after that. */
  lemma {:induction false} InGroupExactlyWhen(states: seq<State>, timeout: nat, events: seq<Event>, i: nat, j: nat,
                                              g: string, id: string, now: nat)
    requires Run(states, timeout, events) && i < j < |states|
    requires (events[i].Join? || (events[i].Alive? && IsMember(states[i].table, g, id)))
             && events[i].group == g && events[i].member == id && events[i].now == now
    requires forall m :: i < m < j ==> !Concerns(events[m], g, id)
    ensures IsMember(states[j].table, g, id) <==> NoSweepAfter(events, i, j, g, now + timeout)
    ensures IsMember(states[j].table, g, id) ==> states[j].table[g].members[id].lastHeartbeat == now
    decreases j
  {
    assert Step(states[j - 1], timeout, events[j - 1], states[j]);
    if i < j - 1 {
      InGroupExactlyWhen(states, timeout, events, i, j - 1, g, id, now);
      StaysUnlessSwept(states[j - 1], timeout, events[j - 1], states[j], g, id, now);
      OneMoreSweep(events, i, j, g, now + timeout);
    } else {
      HeardNow(states[i], timeout, events[i], states[j], g, id);
    }
  }

  lemma HeardNow(s: State, timeout: nat, e: Event, s': State, g: string, id: string)
    requires Step(s, timeout, e, s')
    requires (e.Join? || (e.Alive? && IsMember(s.table, g, id))) && e.group == g && e.member == id
    ensures IsMember(s'.table, g, id) && s'.table[g].members[id].lastHeartbeat == e.now
  {
    MemberAfter(s, timeout, e, s', g, id);
    HeardAfter(s, timeout, e, s', g, id);
  }

  lemma StaysUnlessSwept(s: State, timeout: nat, e: Event, s': State, g: string, id: string, now: nat)
    requires Step(s, timeout, e, s') && !Concerns(e, g, id)
    requires IsMember(s.table, g, id) ==> s.table[g].members[id].lastHeartbeat == now
    ensures IsMember(s'.table, g, id) <==> IsMember(s.table, g, id) && (e.Sweep? ==> e.clock(g) <= now + timeout)
    ensures IsMember(s'.table, g, id) ==> s'.table[g].members[id].lastHeartbeat == now
  {
    MemberAfter(s, timeout, e, s', g, id);
    if IsMember(s'.table, g, id) {
      HeardAfter(s, timeout, e, s', g, id);
    }
  }

  /** And it stays out until it joins again. */
  lemma {:induction false} OutUntilJoin(states: seq<State>, timeout: nat, events: seq<Event>, i: nat, j: nat, g: string, id: string)
    requires Run(states, timeout, events) && i <= j < |states| && !IsMember(states[i].table, g, id)
    requires forall m :: i <= m < j ==> !(events[m].Join? && events[m].group == g && events[m].member == id)
    ensures !IsMember(states[j].table, g, id)
    decreases j - i
  {
    if i < j {
      assert Step(states[i], timeout, events[i], states[i + 1]);
      MemberAfter(states[i], timeout, events[i], states[i + 1], g, id);
      OutUntilJoin(states, timeout, events, i + 1, j, g, id);
    }
  }

  predicate Wants(members: Members, id: string, topic: string) {
    id in members && topic in members[id].topics
  }

  /** In every reachable group, a partition is with some member if and only if
      some member asked for its topic and the topic had that many partitions at
      the group's last rebalance; and it is then with one member only, once. */
  lemma OneOwner(states: seq<State>, timeout: nat, events: seq<Event>, i: nat, g: string, topic: string, p: u32)
    requires Run(states, timeout, events) && i < |states| && g in states[i].table
    ensures var members, counts := states[i].table[g].members, states[i].table[g].counts;
            && ((exists id :: Holds(members, id, PartitionAssignment(topic, p))) <==>
                (exists id :: Wants(members, id, topic)) && topic in counts && p < counts[topic])
            && (forall id, a, jd, b ::
                  (Slot(members, id, a, PartitionAssignment(topic, p)) && Slot(members, jd, b, PartitionAssignment(topic, p)))
                  ==> id == jd && a == b)
  {
    ReachableIsHealthy(states, timeout, events, i);
    var members, counts := states[i].table[g].members, states[i].table[g].counts;
    assert Known(CombinedTopics(members), counts, PartitionAssignment(topic, p)) <==>
           (exists id :: Wants(members, id, topic)) && topic in counts && p < counts[topic] by {
      if topic in CombinedTopics(members) {
        var id :| id in members && topic in members[id].topics;
        assert Wants(members, id, topic);
      } else {
        assert forall id :: !Wants(members, id, topic);
      }
    }
  }

  /** A rebalance goes by the partition counts of its moment; nothing else
      changes what a group goes by. */
  lemma CountsOfRebalance(s: State, timeout: nat, e: Event, s': State, g: string)
    requires Step(s, timeout, e, s') && g in s'.table
    ensures s'.table[g].counts
         == if g in s.table && s'.table[g].generation == s.table[g].generation then s.table[g].counts else s.counts
  {
    if e.Join? {
      assert e.member in Joining(s.table, e.group, e.member, e.topics, e.now).members;
    } else if e.Sweep? {
      var dead := Expired(s.table[g].members, timeout, e.clock(g));
      assert Leaving(s.table[g], dead).members != map[];
    }
  }

  // -------------------------------------------------------------- fair shares

  function AssignedTo(members: Members, ids: set<string>): set<PartitionAssignment> {
    set id, a | id in ids && id in members && a in members[id].assignments :: a
  }

  lemma {:induction false} DistinctSize<T>(s: seq<T>)
    requires Distinct(s)
    ensures |(set x | x in s)| == |s|
  {
    if |s| > 0 {
      var front, last := s[..|s| - 1], s[|s| - 1];
      DistinctSize(front);
      assert (set x | x in s) == (set x | x in front) + {last};
    }
  }

  lemma OneMemberMore(members: Members, ids: set<string>, id: string)
    requires Exclusive(members) && id in ids && ids <= members.Keys
    ensures |AssignedTo(members, ids)| == |AssignedTo(members, ids - {id})| + |members[id].assignments|
  {
    var own := members[id].assignments;
    var others := AssignedTo(members, ids - {id});
    forall i, j | 0 <= i < j < |own|
      ensures own[i] != own[j]
    {
      assert Slot(members, id, i, own[i]) && Slot(members, id, j, own[j]);
    }
    DistinctSize(own);
    forall i | 0 <= i < |own|
      ensures own[i] !in others
    {
      assert Slot(members, id, i, own[i]);
      assert forall jd, j :: jd in members && 0 <= j < |members[jd].assignments| ==> Slot(members, jd, j, members[jd].assignments[j]);
    }
    var mine := set a | a in own;
    assert AssignedTo(members, ids) == others + mine;
    assert others !! mine;
  }

  /** With every load between lo and hi, so is the average. */
  lemma {:induction false} LoadsAddUp(members: Members, ids: set<string>, lo: int, hi: nat)
    requires Exclusive(members) && ids <= members.Keys
    requires forall id :: id in ids ==> lo <= |members[id].assignments| <= hi
    ensures lo * |ids| <= |AssignedTo(members, ids)| <= hi * |ids|
  {
    if ids == {} {
      assert AssignedTo(members, ids) == {};
    } else {
      var id :| id in ids;
      LoadsAddUp(members, ids - {id}, lo, hi);
      OneMemberMore(members, ids, id);
      var n := |ids - {id}|;
      assert |ids| == n + 1 && lo * (n + 1) == lo * n + lo && hi * (n + 1) == hi * n + hi;
    }
  }

  lemma RoundedShare(total: nat, n: nat, load: nat)
    requires n > 0 && load * n - n < total < load * n + n
    ensures load == total / n || (load == total / n + 1 && total % n > 0)
  {
    var d := load - total / n;
    assert total == (total / n) * n + total % n;
    assert d * n == load * n - (total / n) * n;
    assert d < 0 ==> d * n <= 0 - n;
    assert d > 1 ==> d * n >= 2 * n;
    assert d == 1 ==> d * n == n;
  }

  lemma ShareOfTotal(total: nat, n: nat, load: nat)
    requires n > 0 && (load - 1) * (n - 1) <= total - load <= (load + 1) * (n - 1)
    ensures load == total / n || (load == total / n + 1 && total % n > 0)
  {
    assert (load - 1) * (n - 1) == load * n - load - n + 1;
    assert (load + 1) * (n - 1) == load * n - load + n - 1;
    RoundedShare(total, n, load);
  }

  /** Each member has the total divided by the number of members, rounded up
      or down. */
  lemma LoadIsFairShare(members: Members, counts: PartitionCounts, id: string)
    requires Fair(members, counts) && id in members
    ensures var total := |AssignedTo(members, members.Keys)|;
            var load := |members[id].assignments|;
            load == total / |members| || (load == total / |members| + 1 && total % |members| > 0)
    ensures forall a :: a in AssignedTo(members, members.Keys) <==> Known(CombinedTopics(members), counts, a)
  {
    var load, n := |members[id].assignments|, |members|;
    var total := |AssignedTo(members, members.Keys)|;
    var rest := members.Keys - {id};
    LoadsAddUp(members, rest, load - 1, load + 1);
    OneMemberMore(members, members.Keys, id);
    assert |rest| == n - 1;
    ShareOfTotal(total, n, load);
    forall a
      ensures a in AssignedTo(members, members.Keys) <==> Known(CombinedTopics(members), counts, a)
    {
      if a in AssignedTo(members, members.Keys) {
        var jd :| jd in members && a in members[jd].assignments;
        assert Holds(members, jd, a);
      } else {
        assert forall jd :: !Holds(members, jd, a);
      }
    }
  }
}
