/** What a consumer group has delivered: client/src/consumer.rs (join, poll
    and commit) against the offset requests of broker/src/server.rs. */
module GroupDelivery {
  import opened Bytes
  import opened DiskRecord
  import opened Coordinator
  import Segment
  import Partition

  type Fetched = Partition.Fetched

  /** The flat log of every partition, and offsets by partition. */
  type Logs = map<PartitionAssignment, seq<Record>>

  type Offsets = map<PartitionAssignment, nat>

  /** What a member tracks, and the records a poll in progress has gathered. */
  datatype Tracker = Tracker(offsets: Offsets, gathered: seq<Fetched>)

  ghost predicate Numbered(logs: Logs) {
    forall k :: k in logs ==> Segment.Numbered(0, logs[k])
  }

  /** A missing offset counts as 0: the client's default for a tracked offset,
      and the broker's for a committed one. */
  function OffsetOf(offsets: Offsets, k: PartitionAssignment): nat {
    if k in offsets then offsets[k] else 0
  }

  /** The broker's answer to a fetch: the contract of Partition.Fetch. */
  function Reply(logs: Logs, k: PartitionAssignment, offset: nat, max: u32): seq<Fetched>
    requires k in logs
  {
    Partition.Deliver(k.topic, k.partition, Segment.Slice(logs[k], offset, max))
  }

  /** The tracked offset moves behind the last record that came, if any did. */
  function Moved(offsets: Offsets, k: PartitionAssignment, rs: seq<Fetched>): Offsets {
    if rs == [] then offsets else offsets[k := rs[|rs| - 1].offset + 1]
  }

  /** One turn of poll_group's loop. */
  function FetchOne(logs: Logs, max: u32, t: Tracker, k: PartitionAssignment): Tracker
    requires k in logs
  {
    var rs := Reply(logs, k, OffsetOf(t.offsets, k), max);
    Tracker(Moved(t.offsets, k, rs), t.gathered + rs)
  }

  predicate Exist(logs: Logs, ks: seq<PartitionAssignment>) {
    forall k :: k in ks ==> k in logs
  }

  function FetchAll(logs: Logs, max: u32, t: Tracker, ks: seq<PartitionAssignment>): Tracker
    requires Exist(logs, ks)
  {
    if |ks| == 0 then t
    else FetchOne(logs, max, FetchAll(logs, max, t, ks[..|ks| - 1]), ks[|ks| - 1])
  }

  /** One turn of join_group's loop. */
  function RestoreOne(committed: Offsets, offsets: Offsets, k: PartitionAssignment): Offsets {
    offsets[k := OffsetOf(committed, k)]
  }

  function RestoreAll(committed: Offsets, offsets: Offsets, ks: seq<PartitionAssignment>): Offsets {
    if |ks| == 0 then offsets
    else RestoreOne(committed, RestoreAll(committed, offsets, ks[..|ks| - 1]), ks[|ks| - 1])
  }

  /** Every partition restored starts at its committed offset, or at 0 when
      there is none; the others stay where they were. */
  lemma {:induction false} RestoredByKey(committed: Offsets, offsets: Offsets, ks: seq<PartitionAssignment>)
    ensures var restored := RestoreAll(committed, offsets, ks);
            forall k :: if k in ks then k in restored && restored[k] == (if k in committed then committed[k] else 0)
                        else SameAt(restored, offsets, k)
  {
    if |ks| > 0 {
      RestoredByKey(committed, offsets, ks[..|ks| - 1]);
      assert forall k :: k in ks <==> k in ks[..|ks| - 1] || k == ks[|ks| - 1];
    }
  }

  predicate SameAt(a: Offsets, b: Offsets, k: PartitionAssignment) {
    (k in a <==> k in b) && (k in a ==> a[k] == b[k])
  }

  /** The committed offsets after those of the partitions in `sent` were sent. */
  function Sent(committed: Offsets, offsets: Offsets, sent: set<PartitionAssignment>): Offsets
    requires sent <= offsets.Keys
  {
    map k | k in committed.Keys + sent :: if k in sent then offsets[k] else committed[k]
  }

  lemma SentByKey(committed: Offsets, offsets: Offsets, sent: set<PartitionAssignment>)
    requires sent <= offsets.Keys
    ensures var after := Sent(committed, offsets, sent);
            && (forall k :: k in sent ==> k in after && after[k] == offsets[k])
            && (forall k :: k !in sent ==> SameAt(after, committed, k))
  {
  }

  lemma NothingSent(committed: Offsets, offsets: Offsets)
    ensures Sent(committed, offsets, {}) == committed
  {
  }

  lemma SentOneMore(committed: Offsets, offsets: Offsets, sent: set<PartitionAssignment>, k: PartitionAssignment)
    requires sent <= offsets.Keys && k in offsets && k !in sent
    ensures Sent(committed, offsets, sent + {k}) == Sent(committed, offsets, sent)[k := offsets[k]]
  {
    var more, one := Sent(committed, offsets, sent + {k}), Sent(committed, offsets, sent)[k := offsets[k]];
    assert more.Keys == one.Keys;
    assert forall j :: j in more.Keys ==> more[j] == one[j];
  }

  predicate Sending(all: set<PartitionAssignment>, rest: set<PartitionAssignment>, sent: set<PartitionAssignment>,
                    left: nat, answers: nat) {
    rest <= all && sent == all - rest && left + |sent| == answers
  }

  lemma SendingStep(all: set<PartitionAssignment>, rest: set<PartitionAssignment>, sent: set<PartitionAssignment>,
                    left: nat, answers: nat, k: PartitionAssignment)
    requires Sending(all, rest, sent, left, answers) && k in rest
    ensures k in all && k !in sent && sent <= all && |sent + {k}| == |sent| + 1
    ensures left > 0 ==> Sending(all, rest - {k}, sent + {k}, left - 1, answers)
  {
    assert all - (rest - {k}) == sent + {k};
  }

  // ----------------------------------------------------------------- the code

  /** The broker as one group's members see it. */
  class Broker {
    var logs: Logs
    var committed: Offsets

    constructor (logs: Logs)
      ensures this.logs == logs && committed == map[]
    {
      this.logs, committed := logs, map[];
    }

    method Fetch(k: PartitionAssignment, offset: nat, max: u32) returns (records: Option<seq<Fetched>>)
      ensures records == if k in logs then Some(Reply(logs, k, offset, max)) else None
    {
      if k !in logs {
        return None;
      }
      return Some(Reply(logs, k, offset, max));
    }

    method FetchOffset(k: PartitionAssignment) returns (offset: nat)
      ensures offset == OffsetOf(committed, k)
    {
      offset := if k in committed then committed[k] else 0;
    }

    method CommitOffset(k: PartitionAssignment, offset: nat)
      modifies this`committed
      ensures committed == old(committed)[k := offset]
    {
      committed := committed[k := offset];
    }
  }

  datatype ClientError = NotInGroup | Connection | Refused

  /** `answers` requests are answered; the next one fails, with this error, and
      `applied` tells whether the broker had carried it out all the same. */
  datatype Link = Link(answers: nat, failure: ClientError, applied: bool)
  {
    /** The link after n more answers. */
    function Less(n: nat): Link
      requires n <= answers
    {
      Link(answers - n, failure, applied)
    }
  }

  class Consumer {
    var groupId: Option<string>
    var memberId: Option<string>
    var assignments: seq<PartitionAssignment>
    var offsets: Offsets
    var autoCommit: bool

    constructor (groupId: Option<string>, autoCommit: bool)
      ensures offsets == map[] && assignments == [] && memberId == None
    {
      this.groupId, this.autoCommit := groupId, autoCommit;
      memberId, assignments, offsets := None, [], map[];
    }

    /** join_group: id and granted are what the coordinator answers, if its
        answer arrives; then one offset request for each partition granted. */
    method JoinGroup(broker: Broker, id: string, granted: seq<PartitionAssignment>, link: Link)
      returns (res: Result<(), ClientError>)
      modifies this`memberId, this`assignments, this`offsets
      ensures groupId.None? ==> res == Err(NotInGroup)
      ensures groupId.Some? ==> res == if link.answers <= |granted| then Err(link.failure) else Ok(())
      ensures groupId.None? || link.answers == 0 ==>
                memberId == old(memberId) && assignments == old(assignments) && offsets == old(offsets)
      ensures groupId.Some? && link.answers > 0 ==>
                var n := if link.answers <= |granted| then link.answers - 1 else |granted|;
                && memberId == Some(id) && assignments == granted
                && offsets == RestoreAll(broker.committed, old(offsets), granted[..n])
                && (forall k :: k in granted[..n] ==>
                      k in offsets && offsets[k] == if k in broker.committed then broker.committed[k] else 0)
                && (forall k :: k !in granted[..n] ==> SameAt(offsets, old(offsets), k))
    {
      if groupId.None? {
        return Err(NotInGroup);
      }
      if link.answers == 0 {
        return Err(link.failure);
      }
      memberId, assignments := Some(id), granted;
      for i := 0 to |granted|
        invariant i < link.answers && memberId == Some(id) && assignments == granted
        invariant offsets == RestoreAll(broker.committed, old(offsets), granted[..i])
      {
        if i + 1 == link.answers {
          RestoredByKey(broker.committed, old(offsets), granted[..i]);
          return Err(link.failure);
        }
        var offset := broker.FetchOffset(granted[i]);
        offsets := offsets[granted[i] := offset];
        assert granted[..i + 1][..i] == granted[..i];
      }
      assert granted[..|granted|] == granted;
      RestoredByKey(broker.committed, old(offsets), granted);
      return Ok(());
    }

    method LeaveGroup(link: Link) returns (res: Result<(), ClientError>)
      modifies this`memberId, this`assignments
      ensures res == if groupId.None? || old(memberId).None? then Err(NotInGroup)
                     else if link.answers == 0 then Err(link.failure) else Ok(())
      ensures if res.Ok? then memberId == None && assignments == []
              else memberId == old(memberId) && assignments == old(assignments)
    {
      if groupId.None? || memberId.None? {
        return Err(NotInGroup);
      }
      if link.answers == 0 {
        return Err(link.failure);
      }
      memberId, assignments := None, [];
      return Ok(());
    }

    /** commit_offsets sends every tracked offset, also of partitions that are
        assigned no longer, one by one in any order. The commit that fails may
        have reached the broker. */
    method CommitOffsets(broker: Broker, link: Link) returns (res: Result<(), ClientError>, ghost sent: set<PartitionAssignment>)
      modifies broker`committed
      ensures sent <= offsets.Keys && broker.committed == Sent(old(broker.committed), offsets, sent)
      ensures groupId.None? ==> res == Err(NotInGroup) && sent == {}
      ensures groupId.Some? && res.Ok? ==> sent == offsets.Keys
      ensures groupId.Some? && res.Err? ==>
                res.error == link.failure && |sent| == link.answers + if link.applied then 1 else 0
    {
      sent := {};
      NothingSent(broker.committed, offsets);
      if groupId.None? {
        return Err(NotInGroup), sent;
      }
      var rest;
      rest, sent := SendTracked(broker, link.answers);
      if rest == {} {
        return Ok(()), sent;
      }
      if link.applied {
        var k :| k in rest;
        SentOneMore(old(broker.committed), offsets, sent, k);
        broker.CommitOffset(k, offsets[k]);
        sent := sent + {k};
      }
      return Err(link.failure), sent;
    }

    /** The loop of commit_offsets, up to the request that fails. */
    method SendTracked(broker: Broker, answers: nat)
      returns (rest: set<PartitionAssignment>, ghost sent: set<PartitionAssignment>)
      modifies broker`committed
      ensures rest <= offsets.Keys && sent == offsets.Keys - rest && (rest != {} ==> |sent| == answers)
      ensures broker.committed == Sent(old(broker.committed), offsets, sent)
    {
      rest, sent := offsets.Keys, {};
      var left := answers;
      ghost var before := broker.committed;
      NothingSent(before, offsets);
      while rest != {} && left > 0
        invariant Sending(offsets.Keys, rest, sent, left, answers)
        invariant broker.committed == Sent(before, offsets, sent)
        decreases rest
      {
        var k :| k in rest;
        SendingStep(offsets.Keys, rest, sent, left, answers, k);
        SentOneMore(before, offsets, sent, k);
        broker.CommitOffset(k, offsets[k]);
        sent, rest, left := sent + {k}, rest - {k}, left - 1;
      }
    }

    /** poll_group. When a fetch fails, the offsets of the fetches before it
        have moved already, and what they brought is dropped. */
    method PollGroup(broker: Broker, max: u32, link: Link)
      returns (res: Result<seq<Fetched>, ClientError>, ghost done: nat, ghost sent: set<PartitionAssignment>)
      modifies this`offsets, broker`committed
      ensures done <= |assignments| && Exist(broker.logs, assignments[..done])
      ensures var t := FetchAll(broker.logs, max, Tracker(old(offsets), []), assignments[..done]);
              offsets == t.offsets && (res.Ok? ==> res.value == t.gathered)
      ensures res.Ok? <==> done == |assignments|
      ensures res.Err? ==> if done == link.answers then res.error == link.failure
                           else res.error == Refused && assignments[done] !in broker.logs
      ensures sent <= offsets.Keys && broker.committed == Sent(old(broker.committed), offsets, sent)
      ensures !(res.Ok? && autoCommit && res.value != [] && groupId.Some?) ==> sent == {}
      ensures res.Ok? && autoCommit && res.value != [] && groupId.Some? ==>
                sent == offsets.Keys || |sent| + |assignments| == link.answers + if link.applied then 1 else 0
    {
      var all, polled := FetchAssigned(broker, max, link.answers);
      done, sent := polled, {};
      NothingSent(broker.committed, offsets);
      if polled < |assignments| {
        return Err(if polled == link.answers then link.failure else Refused), done, sent;
      }
      if autoCommit && |all| > 0 {
        // a failure is logged and the records are returned all the same
        var outcome;
        outcome, sent := CommitOffsets(broker, link.Less(|assignments|));
      }
      return Ok(all), done, sent;
    }

    /** One fetch of poll_group. */
    method FetchNext(broker: Broker, k: PartitionAssignment, max: u32) returns (records: Option<seq<Fetched>>)
      modifies this`offsets
      ensures k !in broker.logs ==> records == None && offsets == old(offsets)
      ensures k in broker.logs ==>
                var rs := Reply(broker.logs, k, OffsetOf(old(offsets), k), max);
                records == Some(rs) && offsets == Moved(old(offsets), k, rs)
    {
      var current := if k in offsets then offsets[k] else 0;
      records := broker.Fetch(k, current, max);
      if records.Some? && records.value != [] {
        var last := records.value[|records.value| - 1];
        offsets := offsets[k := last.offset + 1];
      }
    }

    /** The loop of poll_group: it stops where the first fetch fails. */
    method FetchAssigned(broker: Broker, max: u32, answers: nat) returns (all: seq<Fetched>, done: nat)
      modifies this`offsets
      ensures done <= |assignments| && done <= answers && Exist(broker.logs, assignments[..done])
      ensures Tracker(offsets, all) == FetchAll(broker.logs, max, Tracker(old(offsets), []), assignments[..done])
      ensures done < |assignments| ==> done == answers || assignments[done] !in broker.logs
    {
      all := [];
      done := 0;
      ghost var start := Tracker(offsets, []);
      while done < |assignments|
        invariant done <= answers && Gathering(broker.logs, max, start, assignments, done, Tracker(offsets, all))
      {
        if done == answers {
          return;
        }
        ghost var t := Tracker(offsets, all);
        var records := FetchNext(broker, assignments[done], max);
        if records.None? {
          return;
        }
        GatheringStep(broker.logs, max, start, assignments, done, t);
        all := all + records.value;
        done := done + 1;
      }
    }
  }

  /** The first `done` fetches of a poll have been made. */
  predicate Gathering(logs: Logs, max: u32, start: Tracker, ks: seq<PartitionAssignment>, done: nat, t: Tracker) {
    done <= |ks| && Exist(logs, ks[..done]) && t == FetchAll(logs, max, start, ks[..done])
  }

  lemma GatheringStep(logs: Logs, max: u32, start: Tracker, ks: seq<PartitionAssignment>, done: nat, t: Tracker)
    requires Gathering(logs, max, start, ks, done, t) && done < |ks| && ks[done] in logs
    ensures Gathering(logs, max, start, ks, done + 1, FetchOne(logs, max, t, ks[done]))
  {
    assert ks[..done + 1][..done] == ks[..done];
  }

  /** The records of a partition's log from o on, as many as asked for or as
      there are, field by field. */
  ghost predicate FromOn(k: PartitionAssignment, log: seq<Record>, o: nat, max: nat, rs: seq<Fetched>) {
    && |rs| == (if o >= |log| then 0 else if |log| - o <= max then |log| - o else max)
    && forall i :: 0 <= i < |rs| ==>
         && rs[i].topic == k.topic && rs[i].partition == k.partition && rs[i].offset == o + i
         && rs[i].message.key == log[o + i].key && rs[i].message.value == log[o + i].value
         && rs[i].message.timestamp == log[o + i].timestamp
  }

  lemma ReplyFromOn(logs: Logs, k: PartitionAssignment, o: nat, max: u32)
    requires Numbered(logs) && k in logs
    ensures FromOn(k, logs[k], o, max, Reply(logs, k, o, max))
  {
    Partition.DeliverFields(k.topic, k.partition, logs[k], o, max);
  }

  lemma MovedBy(offsets: Offsets, k: PartitionAssignment, log: seq<Record>, o: nat, max: nat, rs: seq<Fetched>)
    requires FromOn(k, log, o, max, rs)
    ensures var moved := Moved(offsets, k, rs);
            && (if rs == [] then SameAt(moved, offsets, k) else k in moved && moved[k] == o + |rs|)
            && (forall j :: j != k ==> SameAt(moved, offsets, j))
  {
    if rs != [] {
      assert rs[|rs| - 1].offset == o + (|rs| - 1);
    }
  }

  /** One fetch of a poll gathers the records from the tracked offset on, and
      the tracked offset moves by that many. */
  lemma FetchGathers(logs: Logs, max: u32, t: Tracker, k: PartitionAssignment) returns (rs: seq<Fetched>)
    requires Numbered(logs) && k in logs
    ensures var o, t' := if k in t.offsets then t.offsets[k] else 0, FetchOne(logs, max, t, k);
            && FromOn(k, logs[k], o, max, rs) && t'.gathered == t.gathered + rs
            && (if rs == [] then SameAt(t'.offsets, t.offsets, k) else k in t'.offsets && t'.offsets[k] == o + |rs|)
            && (forall j :: j != k ==> SameAt(t'.offsets, t.offsets, j))
  {
    var o := OffsetOf(t.offsets, k);
    rs := Reply(logs, k, o, max);
    ReplyFromOn(logs, k, o, max);
    MovedBy(t.offsets, k, logs[k], o, max, rs);
  }

  ghost predicate Distinct(ks: seq<PartitionAssignment>) {
    forall i, j :: 0 <= i < j < |ks| ==> ks[i] != ks[j]
  }

  function Joined(parts: seq<seq<Fetched>>): seq<Fetched> {
    if |parts| == 0 then [] else Joined(parts[..|parts| - 1]) + parts[|parts| - 1]
  }

  /** What each partition gave to a poll, and where its tracked offset went. */
  ghost predicate Gave(logs: Logs, max: nat, offsets: Offsets, offsets': Offsets, k: PartitionAssignment, rs: seq<Fetched>)
    requires k in logs
  {
    var o := if k in offsets then offsets[k] else 0;
    && FromOn(k, logs[k], o, max, rs)
    && if rs == [] then SameAt(offsets', offsets, k) else k in offsets' && offsets'[k] == o + |rs|
  }

  ghost predicate AllGave(logs: Logs, max: nat, a: Offsets, b: Offsets, ks: seq<PartitionAssignment>,
                          parts: seq<seq<Fetched>>)
    requires Exist(logs, ks)
  {
    |parts| == |ks| && forall m :: 0 <= m < |ks| ==> Gave(logs, max, a, b, ks[m], parts[m])
  }

  /** The poll gathered these lists, partition by partition in the order of
      ks, and left every other partition's offset alone. */
  ghost predicate PollGave(logs: Logs, max: nat, t: Tracker, ks: seq<PartitionAssignment>, t': Tracker,
                           parts: seq<seq<Fetched>>)
    requires Exist(logs, ks)
  {
    && t'.gathered == t.gathered + Joined(parts)
    && AllGave(logs, max, t.offsets, t'.offsets, ks, parts)
    && (forall k :: k !in ks ==> SameAt(t'.offsets, t.offsets, k))
  }

  lemma AllGaveStill(logs: Logs, max: nat, a: Offsets, b: Offsets, c: Offsets, ks: seq<PartitionAssignment>,
                     parts: seq<seq<Fetched>>, last: PartitionAssignment)
    requires Exist(logs, ks) && AllGave(logs, max, a, b, ks, parts) && last !in ks
    requires forall k :: k != last ==> SameAt(c, b, k)
    ensures AllGave(logs, max, a, c, ks, parts)
  {
    forall m | 0 <= m < |ks|
      ensures Gave(logs, max, a, c, ks[m], parts[m])
    {
      assert Gave(logs, max, a, b, ks[m], parts[m]) && SameAt(c, b, ks[m]);
      GaveStill(logs, max, a, b, c, ks[m], parts[m]);
    }
  }

  lemma AllGaveOneMore(logs: Logs, max: nat, a: Offsets, b: Offsets, ks: seq<PartitionAssignment>,
                       parts: seq<seq<Fetched>>, rs: seq<Fetched>)
    requires |ks| > 0 && Exist(logs, ks) && AllGave(logs, max, a, b, ks[..|ks| - 1], parts)
    requires Gave(logs, max, a, b, ks[|ks| - 1], rs)
    ensures AllGave(logs, max, a, b, ks, parts + [rs])
  {
    forall m | 0 <= m < |ks|
      ensures Gave(logs, max, a, b, ks[m], (parts + [rs])[m])
    {
      if m < |parts| {
        assert Gave(logs, max, a, b, ks[..|ks| - 1][m], parts[m]);
      }
    }
  }

  lemma PollGaveMore(logs: Logs, max: u32, t: Tracker, ks: seq<PartitionAssignment>, t': Tracker,
                     parts: seq<seq<Fetched>>) returns (more: seq<seq<Fetched>>)
    requires Numbered(logs) && |ks| > 0 && Exist(logs, ks) && Distinct(ks)
    requires PollGave(logs, max, t, ks[..|ks| - 1], t', parts)
    ensures PollGave(logs, max, t, ks, FetchOne(logs, max, t', ks[|ks| - 1]), more)
  {
    var front, k := ks[..|ks| - 1], ks[|ks| - 1];
    assert k !in front;
    var rs := FetchGathers(logs, max, t', k);
    var t2 := FetchOne(logs, max, t', k);
    more := parts + [rs];
    assert more[..|parts|] == parts && front + [k] == ks;
    AllGaveStill(logs, max, t.offsets, t'.offsets, t2.offsets, front, parts, k);
    assert Gave(logs, max, t.offsets, t2.offsets, k, rs) by {
      assert SameAt(t'.offsets, t.offsets, k);
    }
    AllGaveOneMore(logs, max, t.offsets, t2.offsets, ks, parts, rs);
    OthersStay(t.offsets, t'.offsets, t2.offsets, front, k);
  }

  /** A whole poll gathers, partition by partition in the order assigned, as
      many records from its tracked offset on as were asked for or as there
      are, and every tracked offset moves by what its partition gave. */
  lemma {:induction false} PollGathers(logs: Logs, max: u32, t: Tracker, ks: seq<PartitionAssignment>)
    returns (parts: seq<seq<Fetched>>)
    requires Numbered(logs) && Exist(logs, ks) && Distinct(ks)
    ensures PollGave(logs, max, t, ks, FetchAll(logs, max, t, ks), parts)
  {
    if |ks| == 0 {
      parts := [];
    } else {
      parts := PollGathers(logs, max, t, ks[..|ks| - 1]);
      parts := PollGaveMore(logs, max, t, ks, FetchAll(logs, max, t, ks[..|ks| - 1]), parts);
    }
  }

  lemma GaveStill(logs: Logs, max: nat, a: Offsets, b: Offsets, c: Offsets, k: PartitionAssignment, rs: seq<Fetched>)
    requires k in logs && Gave(logs, max, a, b, k, rs) && SameAt(c, b, k)
    ensures Gave(logs, max, a, c, k, rs)
  {
  }

  lemma OthersStay(a: Offsets, b: Offsets, c: Offsets, ks: seq<PartitionAssignment>, last: PartitionAssignment)
    requires forall k :: k !in ks ==> SameAt(b, a, k)
    requires forall k :: k != last ==> SameAt(c, b, k)
    ensures forall k :: k !in ks + [last] ==> SameAt(c, a, k)
  {
    forall k | k !in ks + [last]
      ensures SameAt(c, a, k)
    {
      assert k !in ks && last in ks + [last];
      assert SameAt(b, a, k) && SameAt(c, b, k);
    }
  }

  // --------------------------------------------------------------------- runs

  /** One group: its partitions' logs, its committed offsets, its members, and
      every record that any poll has returned. */
  datatype World = World(logs: Logs, committed: Offsets, members: map<nat, Tracker>, delivered: set<Fetched>)
  {
    function Put(c: nat, t: Tracker): World {
      this.(members := members[c := t])
    }
  }

  /** Single requests, so that polls, joins and commits of different members
      interleave. Leaving the group changes no tracked offset. */
  datatype Event =
    | Grow(k: PartitionAssignment, more: seq<Record>)
    | Connect(c: nat)
    | Restore(c: nat, k: PartitionAssignment)
    | Fetch(c: nat, k: PartitionAssignment, max: u32)
    | Return(c: nat)
    | Commit(c: nat, k: PartitionAssignment)
    | Disconnect(c: nat)
    | FailPoll(c: nat)

  function Records(rs: seq<Fetched>): set<Fetched> {
    set r | r in rs
  }

  function Log(logs: Logs, k: PartitionAssignment): seq<Record> {
    if k in logs then logs[k] else []
  }

  ghost predicate Step(w: World, e: Event, w': World) {
    match e
    case Grow(k, more) =>
      Segment.Numbered(0, Log(w.logs, k) + more) && w' == w.(logs := w.logs[k := Log(w.logs, k) + more])
    case Connect(c) => c !in w.members && w' == w.Put(c, Tracker(map[], []))
    case Restore(c, k) =>
      c in w.members && w.members[c].gathered == []
      && w' == w.Put(c, Tracker(RestoreOne(w.committed, w.members[c].offsets, k), []))
    case Fetch(c, k, max) =>
      c in w.members && k in w.logs && w' == w.Put(c, FetchOne(w.logs, max, w.members[c], k))
    case Return(c) =>
      c in w.members
      && w' == w.Put(c, Tracker(w.members[c].offsets, [])).(delivered := w.delivered + Records(w.members[c].gathered))
    case Commit(c, k) =>
      c in w.members && k in w.members[c].offsets
      && w' == w.(committed := w.committed[k := w.members[c].offsets[k]])
    case Disconnect(c) => w' == w.(members := w.members - {c})
    case FailPoll(c) => c in w.members && w' == w.Put(c, Tracker(w.members[c].offsets, []))
  }

  /** A poll is in progress at c when it fails, or when c disappears. */
  predicate CutsPoll(w: World, e: Event) {
    (e.FailPoll? || e.Disconnect?) && e.c in w.members && w.members[e.c].gathered != []
  }

  /** Below the group's committed offset, or an offset some member tracks. */
  ghost predicate Below(committed: Offsets, members: map<nat, Tracker>, k: PartitionAssignment, o: nat) {
    o < OffsetOf(committed, k) || exists c :: c in members && o < OffsetOf(members[c].offsets, k)
  }

  /** The members that keep their tracked offsets when e cuts c's poll. */
  function Remaining(w: World, e: Event): map<nat, Tracker> {
    if e.Disconnect? then w.members - {e.c} else w.members
  }

  /** Cutting the poll of c does no harm: each record it had fetched lies above
      the committed offset and above what the remaining members track, or was
      delivered before, or another member has it too. */
  ghost predicate Harmless(w: World, e: Event) {
    CutsPoll(w, e) ==>
      forall r :: r in w.members[e.c].gathered
                  && Below(w.committed, Remaining(w, e), PartitionAssignment(r.topic, r.partition), r.offset) ==>
        r in w.delivered + InHands(w.members - {e.c})
  }

  ghost predicate HarmlessStep(w: World, e: Event, w': World) {
    Step(w, e, w') && Harmless(w, e)
  }

  ghost predicate Reach(w: World, es: seq<Event>, w': World) {
    if |es| == 0 then w' == w
    else exists m {:trigger HarmlessStep(m, es[|es| - 1], w')} ::
           Reach(w, es[..|es| - 1], m) && HarmlessStep(m, es[|es| - 1], w')
  }

  ghost predicate Initial(w: World) {
    Numbered(w.logs) && w.committed == map[] && w.members == map[] && w.delivered == {}
  }

  // ------------------------------------------------------------- the invariant

  function RecordAt(logs: Logs, k: PartitionAssignment, i: nat): Fetched
    requires k in logs && i < |logs[k]|
  {
    Partition.Fetched(k.topic, k.partition, logs[k][i].offset, logs[k][i].ToMessage())
  }

  /** The records that polls in progress have fetched and not returned yet. */
  function InHands(members: map<nat, Tracker>): set<Fetched> {
    set c, r | c in members && r in members[c].gathered :: r
  }

  function Seen(w: World): set<Fetched> {
    w.delivered + InHands(w.members)
  }

  /** Everything below o has been seen, and there are that many records. */
  ghost predicate Covered(logs: Logs, seen: set<Fetched>, k: PartitionAssignment, o: nat) {
    o > 0 ==> k in logs && o <= |logs[k]| && forall i :: 0 <= i < o ==> RecordAt(logs, k, i) in seen
  }

  ghost predicate AllCovered(logs: Logs, seen: set<Fetched>, offsets: Offsets) {
    forall k :: k in offsets ==> Covered(logs, seen, k, offsets[k])
  }

  /** r is a log's record below the offset tracked for it. */
  ghost predicate Behind(logs: Logs, offsets: Offsets, r: Fetched) {
    var k := PartitionAssignment(r.topic, r.partition);
    && k in offsets && k in logs && r.offset < offsets[k] && r.offset < |logs[k]|
    && r == RecordAt(logs, k, r.offset)
  }

  ghost predicate MemberInvariant(logs: Logs, seen: set<Fetched>, t: Tracker) {
    AllCovered(logs, seen, t.offsets) && forall r :: r in t.gathered ==> Behind(logs, t.offsets, r)
  }

  ghost predicate Invariant(w: World) {
    && Numbered(w.logs)
    && AllCovered(w.logs, Seen(w), w.committed)
    && forall c :: c in w.members ==> MemberInvariant(w.logs, Seen(w), w.members[c])
  }

  /** rs are the records of a partition's log from o on, as many as they are. */
  ghost predicate Stretch(logs: Logs, k: PartitionAssignment, o: nat, rs: seq<Fetched>)
    requires k in logs
  {
    && (rs != [] ==> o + |rs| <= |logs[k]| && rs[|rs| - 1].offset + 1 == o + |rs|)
    && forall i :: 0 <= i < |rs| ==> o + i < |logs[k]| && rs[i] == RecordAt(logs, k, o + i) && rs[i].offset == o + i
  }

  lemma ReplyIs(logs: Logs, k: PartitionAssignment, o: nat, max: u32)
    requires Numbered(logs) && k in logs
    ensures Stretch(logs, k, o, Reply(logs, k, o, max))
  {
    var slice := Segment.Slice(logs[k], o, max);
    var rs := Reply(logs, k, o, max);
    forall i | 0 <= i < |slice|
      ensures |rs| == |slice| && rs[i] == Partition.Fetched(k.topic, k.partition, slice[i].offset, slice[i].ToMessage())
    {
      Partition.DeliverAt(k.topic, k.partition, slice, i);
    }
    assert |slice| == 0 ==> rs == [];
  }

  lemma CoveredByMore(logs: Logs, logs': Logs, seen: set<Fetched>, seen': set<Fetched>, t: Tracker)
    requires MemberInvariant(logs, seen, t) && seen <= seen'
    requires forall k :: k in logs ==> k in logs' && logs[k] <= logs'[k]
    ensures MemberInvariant(logs', seen', t)
  {
    forall k | k in t.offsets
      ensures Covered(logs', seen', k, t.offsets[k])
    {
      assert Covered(logs, seen, k, t.offsets[k]);
      assert t.offsets[k] > 0 ==> forall i :: 0 <= i < t.offsets[k] ==> RecordAt(logs', k, i) == RecordAt(logs, k, i);
    }
  }

  /** Moving the tracked offset behind the records that came covers exactly
      them. */
  lemma MoveKeepsMember(logs: Logs, seen: set<Fetched>, t: Tracker, k: PartitionAssignment, rs: seq<Fetched>)
    requires k in logs && MemberInvariant(logs, seen, t) && Stretch(logs, k, OffsetOf(t.offsets, k), rs)
    ensures MemberInvariant(logs, seen + Records(t.gathered + rs), Tracker(Moved(t.offsets, k, rs), t.gathered + rs))
  {
    var o, seen', offsets' := OffsetOf(t.offsets, k), seen + Records(t.gathered + rs), Moved(t.offsets, k, rs);
    forall i | 0 <= i < o + |rs|
      ensures rs != [] ==> RecordAt(logs, k, i) in seen'
    {
      if i >= o {
        assert rs[i - o] in t.gathered + rs;
      } else {
        assert Covered(logs, seen, k, o);
      }
    }
    forall j | j in offsets'
      ensures Covered(logs, seen', j, offsets'[j])
    {
      assert j in t.offsets ==> Covered(logs, seen, j, t.offsets[j]);
    }
    MoveKeepsBehind(logs, t, k, rs);
  }

  lemma MoveKeepsBehind(logs: Logs, t: Tracker, k: PartitionAssignment, rs: seq<Fetched>)
    requires k in logs && Stretch(logs, k, OffsetOf(t.offsets, k), rs)
    requires forall r :: r in t.gathered ==> Behind(logs, t.offsets, r)
    ensures forall r :: r in t.gathered + rs ==> Behind(logs, Moved(t.offsets, k, rs), r)
  {
    forall r | r in t.gathered + rs
      ensures Behind(logs, Moved(t.offsets, k, rs), r)
    {
      if r in t.gathered {
        assert Behind(logs, t.offsets, r);
      } else {
        var i :| 0 <= i < |rs| && rs[i] == r;
      }
    }
  }

  /** The other members' invariants when c's tracker changes. */
  lemma OthersKept(w: World, c: nat, logs': Logs, seen': set<Fetched>)
    requires Invariant(w) && Seen(w) <= seen'
    requires forall k :: k in w.logs ==> k in logs' && w.logs[k] <= logs'[k]
    ensures forall d :: d in w.members ==> MemberInvariant(logs', seen', w.members[d])
    ensures AllCovered(logs', seen', w.committed)
  {
    forall d | d in w.members
      ensures MemberInvariant(logs', seen', w.members[d])
    {
      CoveredByMore(w.logs, logs', Seen(w), seen', w.members[d]);
    }
    CoveredByMore(w.logs, logs', Seen(w), seen', Tracker(w.committed, []));
  }

  lemma HandsAfter(members: map<nat, Tracker>, c: nat, t: Tracker)
    requires c in members
    ensures InHands(members) <= InHands(members[c := t]) + Records(members[c].gathered)
    ensures Records(t.gathered) <= InHands(members[c := t])
    ensures members[c].gathered <= t.gathered ==> InHands(members) <= InHands(members[c := t])
  {
    forall r | r in InHands(members)
      ensures r in InHands(members[c := t]) || r in members[c].gathered
      ensures members[c].gathered <= t.gathered ==> r in InHands(members[c := t])
    {
      var d :| d in members && r in members[d].gathered;
      if d != c {
        assert members[c := t][d] == members[d];
      } else if members[c].gathered <= t.gathered {
        var j :| 0 <= j < |members[c].gathered| && members[c].gathered[j] == r;
        assert t.gathered[j] == r;
        assert r in members[c := t][c].gathered;
      }
    }
    assert members[c := t][c] == t;
  }

  lemma FetchKeepsInvariant(w: World, c: nat, k: PartitionAssignment, max: u32, w': World)
    requires Invariant(w) && Step(w, Fetch(c, k, max), w')
    ensures Invariant(w')
  {
    var t, t' := w.members[c], FetchOne(w.logs, max, w.members[c], k);
    HandsAfter(w.members, c, t');
    ReplyIs(w.logs, k, OffsetOf(t.offsets, k), max);
    MoveKeepsMember(w.logs, Seen(w), t, k, Reply(w.logs, k, OffsetOf(t.offsets, k), max));
    OthersKept(w, c, w.logs, Seen(w'));
    CoveredByMore(w.logs, w.logs, Seen(w) + Records(t'.gathered), Seen(w'), t');
  }

  /** Dropping what a member has gathered is safe once it is returned. */
  lemma EmptyHandsKeepInvariant(w: World, c: nat, w': World)
    requires Invariant(w) && c in w.members
    requires w'.logs == w.logs && w'.committed == w.committed
    requires w'.members == w.members[c := Tracker(w.members[c].offsets, [])]
    requires w.delivered <= w'.delivered && Records(w.members[c].gathered) <= Seen(w')
    ensures Invariant(w')
  {
    HandsAfter(w.members, c, Tracker(w.members[c].offsets, []));
    OthersKept(w, c, w.logs, Seen(w'));
    CoveredByMore(w.logs, w.logs, Seen(w'), Seen(w'), Tracker(w.members[c].offsets, w.members[c].gathered));
  }

  lemma ConnectKeepsInvariant(w: World, c: nat, w': World)
    requires Invariant(w) && Step(w, Connect(c), w')
    ensures Invariant(w')
  {
    assert InHands(w.members) <= InHands(w'.members) by {
      assert forall d :: d in w.members ==> w'.members[d] == w.members[d];
    }
    OthersKept(w, c, w.logs, Seen(w'));
  }

  // -------------------------------------------------------- polls cut short

  lemma HandsWithout(members: map<nat, Tracker>, c: nat, t: Tracker)
    requires c in members && t.gathered == []
    ensures InHands(members[c := t]) == InHands(members - {c})
    ensures InHands(members) == InHands(members - {c}) + Records(members[c].gathered)
  {
    var others, emptied := members - {c}, members[c := t];
    forall r
      ensures r in InHands(emptied) <==> r in InHands(others)
      ensures r in InHands(members) <==> r in InHands(others) || r in members[c].gathered
    {
      assert forall d :: d in others ==> others[d] == members[d] == emptied[d];
      assert r in InHands(emptied) <==> exists d :: d in emptied && r in emptied[d].gathered;
      assert r in InHands(others) <==> exists d :: d in others && r in others[d].gathered;
      assert r in InHands(members) <==> exists d :: d in members && r in members[d].gathered;
    }
  }

  /** What a cut leaves behind. */
  lemma CutLeaves(w: World, e: Event, w': World)
    requires Step(w, e, w') && (e.FailPoll? || e.Disconnect?) && e.c in w.members
    ensures w'.logs == w.logs && w'.committed == w.committed && w'.delivered == w.delivered
    ensures Seen(w') == w.delivered + InHands(w.members - {e.c})
    ensures Seen(w) == Seen(w') + Records(w.members[e.c].gathered)
    ensures w'.members.Keys == Remaining(w, e).Keys
    ensures forall d :: d in w'.members ==> w'.members[d].offsets == w.members[d].offsets
    ensures forall d :: d in w'.members && d != e.c ==> w'.members[d] == w.members[d]
    ensures e.c in w'.members ==> w'.members[e.c].gathered == []
  {
    HandsWithout(w.members, e.c, Tracker(w.members[e.c].offsets, []));
  }

  lemma StillCovered(w: World, e: Event, w': World, k: PartitionAssignment, o: nat)
    requires Invariant(w) && Step(w, e, w') && (e.FailPoll? || e.Disconnect?) && e.c in w.members && Harmless(w, e)
    requires Covered(w.logs, Seen(w), k, o) && forall i: nat :: i < o ==> Below(w.committed, Remaining(w, e), k, i)
    ensures Covered(w.logs, Seen(w'), k, o)
  {
    CutLeaves(w, e, w');
    if o > 0 {
      forall i | 0 <= i < o
        ensures RecordAt(w.logs, k, i) in Seen(w')
      {
        var r := RecordAt(w.logs, k, i);
        assert r in Seen(w) && PartitionAssignment(r.topic, r.partition) == k && r.offset == i;
        assert Below(w.committed, Remaining(w, e), k, i);
      }
    }
  }

  lemma HarmlessCutKeeps(w: World, e: Event, w': World)
    requires Invariant(w) && Step(w, e, w') && (e.FailPoll? || e.Disconnect?) && e.c in w.members && Harmless(w, e)
    ensures Invariant(w')
  {
    CutLeaves(w, e, w');
    forall k | k in w.committed
      ensures Covered(w.logs, Seen(w'), k, w.committed[k])
    {
      StillCovered(w, e, w', k, w.committed[k]);
    }
    forall d | d in w'.members
      ensures MemberInvariant(w.logs, Seen(w'), w'.members[d])
    {
      var t := w.members[d];
      assert MemberInvariant(w.logs, Seen(w), t);
      forall k | k in t.offsets
        ensures Covered(w.logs, Seen(w'), k, t.offsets[k])
      {
        assert d in Remaining(w, e) && Remaining(w, e)[d] == t;
        StillCovered(w, e, w', k, t.offsets[k]);
      }
    }
  }

  lemma HarmfulCutBreaks(w: World, e: Event, w': World)
    requires Invariant(w) && Step(w, e, w') && (e.FailPoll? || e.Disconnect?) && e.c in w.members && Invariant(w')
    ensures Harmless(w, e)
  {
    CutLeaves(w, e, w');
    forall r | r in w.members[e.c].gathered
               && Below(w.committed, Remaining(w, e), PartitionAssignment(r.topic, r.partition), r.offset)
      ensures r in Seen(w')
    {
      var k := PartitionAssignment(r.topic, r.partition);
      assert MemberInvariant(w.logs, Seen(w), w.members[e.c]);
      assert Behind(w.logs, w.members[e.c].offsets, r);
      if r.offset < OffsetOf(w.committed, k) {
        assert Covered(w'.logs, Seen(w'), k, w'.committed[k]);
      } else {
        var d :| d in Remaining(w, e) && r.offset < OffsetOf(Remaining(w, e)[d].offsets, k);
        assert MemberInvariant(w'.logs, Seen(w'), w'.members[d]);
        assert Covered(w'.logs, Seen(w'), k, w'.members[d].offsets[k]);
      }
    }
  }

  /** A poll that fails partway, and a member that disappears in the middle of
      one, keep the invariant if and only if that does no harm. */
  lemma CutKeepsExactlyWhen(w: World, e: Event, w': World)
    requires Invariant(w) && Step(w, e, w') && (e.FailPoll? || e.Disconnect?) && e.c in w.members
    ensures Invariant(w') <==> Harmless(w, e)
  {
    if Invariant(w') {
      HarmfulCutBreaks(w, e, w');
    } else if Harmless(w, e) {
      HarmlessCutKeeps(w, e, w');
    }
  }

  lemma StepKeepsInvariant(w: World, e: Event, w': World)
    requires Invariant(w) && HarmlessStep(w, e, w')
    ensures Invariant(w')
  {
    match e
    case Grow(k, more) =>
      OthersKept(w, 0, w'.logs, Seen(w));
    case Connect(c) => ConnectKeepsInvariant(w, c, w');
    case Restore(c, k) =>
      HandsAfter(w.members, c, w'.members[c]);
      OthersKept(w, c, w.logs, Seen(w'));
    case Fetch(c, k, max) => FetchKeepsInvariant(w, c, k, max, w');
    case Return(c) => EmptyHandsKeepInvariant(w, c, w');
    case Commit(c, k) => assert Seen(w') == Seen(w);
    case Disconnect(c) =>
      if c in w.members {
        HarmlessCutKeeps(w, e, w');
      } else {
        assert w.members - {c} == w.members;
      }
    case FailPoll(c) => HarmlessCutKeeps(w, e, w');
  }

  lemma {:induction false} ReachedKeepsInvariant(w: World, es: seq<Event>, w': World)
    requires Invariant(w) && Reach(w, es, w')
    ensures Invariant(w')
  {
    if |es| > 0 {
      var m :| Reach(w, es[..|es| - 1], m) && HarmlessStep(m, es[|es| - 1], w');
      ReachedKeepsInvariant(w, es[..|es| - 1], m);
      StepKeepsInvariant(m, es[|es| - 1], w');
    }
  }

  // ------------------------------------------------------------------- results

  ghost predicate Resting(w: World) {
    forall c :: c in w.members ==> w.members[c].gathered == []
  }

  /** In every run of joins, polls, commits, leaves and crashes by any number
      of members, interleaved request by request, in which no poll is cut short
      harmfully, each record below the group's committed offset or below any
      member's tracked offset has been delivered to some member, or is in the
      hands of a poll that is about to deliver it. */
  lemma EverythingBelowIsSeen(w: World, es: seq<Event>, w': World, k: PartitionAssignment, o: nat)
    requires Initial(w) && Reach(w, es, w') && Below(w'.committed, w'.members, k, o)
    ensures k in w'.logs && o < |w'.logs[k]| && RecordAt(w'.logs, k, o) in Seen(w')
    ensures Resting(w') ==> RecordAt(w'.logs, k, o) in w'.delivered
  {
    ReachedKeepsInvariant(w, es, w');
    if o < OffsetOf(w'.committed, k) {
      assert Covered(w'.logs, Seen(w'), k, w'.committed[k]);
    } else {
      var c :| c in w'.members && o < OffsetOf(w'.members[c].offsets, k);
      assert Covered(w'.logs, Seen(w'), k, w'.members[c].offsets[k]);
    }
  }

  /** A poll that fails partway keeps this true if and only if every record it
      had already fetched was delivered before, or is in other hands. */
  lemma FailedPollKeepsExactlyWhen(w: World, c: nat, w': World)
    requires Invariant(w) && Step(w, FailPoll(c), w')
    ensures Invariant(w') <==> Records(w.members[c].gathered) <= w.delivered + InHands(w.members - {c})
  {
    var e := FailPoll(c);
    CutKeepsExactlyWhen(w, e, w');
    forall r | r in w.members[c].gathered
      ensures Below(w.committed, Remaining(w, e), PartitionAssignment(r.topic, r.partition), r.offset)
    {
      assert MemberInvariant(w.logs, Seen(w), w.members[c]);
      assert Behind(w.logs, w.members[c].offsets, r);
    }
  }

  /** A member that disappears in the middle of a poll does no harm if and only
      if each record it had fetched lies above the committed offset and above
      what every other member tracks, or is seen elsewhere. So without commits
      in the middle nothing is lost: the records are fetched again. */
  lemma CrashKeepsExactlyWhen(w: World, c: nat, w': World)
    requires Invariant(w) && c in w.members && Step(w, Disconnect(c), w')
    ensures Invariant(w') <==>
              forall r :: r in w.members[c].gathered
                          && Below(w.committed, w.members - {c}, PartitionAssignment(r.topic, r.partition), r.offset) ==>
                r in w.delivered + InHands(w.members - {c})
  {
    CutKeepsExactlyWhen(w, Disconnect(c), w');
  }

  // -------------------------------------------------- where a member resumes

  /** Any sequence of steps, harmful ones included. */
  ghost predicate Trace(ws: seq<World>, es: seq<Event>) {
    && |ws| == |es| + 1 && Numbered(ws[0].logs)
    && forall i :: 0 <= i < |es| ==> Step(ws[i], es[i], ws[i + 1])
  }

  lemma StepKeepsNumbered(w: World, e: Event, w': World)
    requires Numbered(w.logs) && Step(w, e, w')
    ensures Numbered(w'.logs)
  {
  }

  lemma {:induction false} TraceNumbered(ws: seq<World>, es: seq<Event>, i: nat)
    requires Trace(ws, es) && i < |ws|
    ensures Numbered(ws[i].logs)
  {
    if i > 0 {
      TraceNumbered(ws, es, i - 1);
      StepKeepsNumbered(ws[i - 1], es[i - 1], ws[i]);
    }
  }

  /** The events that set what c tracks for k, or make c a new member. */
  predicate Resets(e: Event, c: nat, k: PartitionAssignment) {
    match e
    case Restore(d, j) => d == c && j == k
    case Fetch(d, j, _) => d == c && j == k
    case Connect(d) => d == c
    case Disconnect(d) => d == c
    case _ => false
  }

  lemma StepLeavesTracked(w: World, e: Event, w': World, c: nat, k: PartitionAssignment)
    requires Step(w, e, w') && c in w.members && !Resets(e, c, k)
    ensures c in w'.members && SameAt(w'.members[c].offsets, w.members[c].offsets, k)
  {
    if e.Fetch? && e.c == c {
      assert e.k != k;
    }
  }

  lemma StepLeavesCommitted(w: World, e: Event, w': World, k: PartitionAssignment)
    requires Step(w, e, w') && !(e.Commit? && e.k == k)
    ensures SameAt(w'.committed, w.committed, k)
  {
  }

  lemma {:induction false} TrackedStays(ws: seq<World>, es: seq<Event>, i: nat, j: nat, c: nat, k: PartitionAssignment)
    requires Trace(ws, es) && i <= j < |ws| && c in ws[i].members
    requires forall m :: i <= m < j ==> !Resets(es[m], c, k)
    ensures c in ws[j].members && SameAt(ws[j].members[c].offsets, ws[i].members[c].offsets, k)
    decreases j
  {
    if i < j {
      TrackedStays(ws, es, i, j - 1, c, k);
      StepLeavesTracked(ws[j - 1], es[j - 1], ws[j], c, k);
    }
  }

  lemma {:induction false} CommittedStays(ws: seq<World>, es: seq<Event>, i: nat, j: nat, k: PartitionAssignment)
    requires Trace(ws, es) && i <= j < |ws|
    requires forall m :: i <= m < j ==> !(es[m].Commit? && es[m].k == k)
    ensures SameAt(ws[j].committed, ws[i].committed, k)
    decreases j
  {
    if i < j {
      CommittedStays(ws, es, i, j - 1, k);
      StepLeavesCommitted(ws[j - 1], es[j - 1], ws[j], k);
    }
  }

  lemma FetchStepGathers(ws: seq<World>, es: seq<Event>, j: nat, c: nat, k: PartitionAssignment, max: u32)
    returns (rs: seq<Fetched>)
    requires Trace(ws, es) && j < |es| && es[j] == Fetch(c, k, max)
    ensures c in ws[j].members && c in ws[j + 1].members && k in ws[j].logs
    ensures var t, t' := ws[j].members[c], ws[j + 1].members[c];
            && t'.gathered == t.gathered + rs
            && FromOn(k, ws[j].logs[k], OffsetOf(t.offsets, k), max, rs)
            && OffsetOf(t'.offsets, k) == OffsetOf(t.offsets, k) + |rs|
  {
    assert Step(ws[j], es[j], ws[j + 1]);
    TraceNumbered(ws, es, j);
    rs := FetchGathers(ws[j].logs, max, ws[j].members[c], k);
  }

  /** In every run, the first fetch of a partition after a join restored it
      starts exactly at the offset committed then, or at 0 if there was none:
      no record below it comes again and none above it is skipped, whatever
      other members and other partitions do in between. */
  lemma ResumesAtCommitted(ws: seq<World>, es: seq<Event>, i: nat, j: nat, c: nat, k: PartitionAssignment, max: u32)
    returns (rs: seq<Fetched>)
    requires Trace(ws, es) && i < j < |es| && es[i] == Restore(c, k) && es[j] == Fetch(c, k, max)
    requires forall m :: i < m < j ==> !Resets(es[m], c, k)
    ensures c in ws[j].members && c in ws[j + 1].members && k in ws[j].logs
    ensures ws[j + 1].members[c].gathered == ws[j].members[c].gathered + rs
    ensures FromOn(k, ws[j].logs[k], if k in ws[i].committed then ws[i].committed[k] else 0, max, rs)
  {
    assert Step(ws[i], es[i], ws[i + 1]);
    TrackedStays(ws, es, i + 1, j, c, k);
    rs := FetchStepGathers(ws, es, j, c, k, max);
  }

  /** So when c takes a partition over, it goes on at the very record at which
      d was when it made the last commit for it. */
  lemma TakesOverAtCommit(ws: seq<World>, es: seq<Event>, h: nat, i: nat, j: nat, d: nat, c: nat,
                          k: PartitionAssignment, max: u32) returns (rs: seq<Fetched>)
    requires Trace(ws, es) && h < i < j < |es|
    requires es[h] == Commit(d, k) && es[i] == Restore(c, k) && es[j] == Fetch(c, k, max)
    requires forall m :: h < m < i ==> !(es[m].Commit? && es[m].k == k)
    requires forall m :: i < m < j ==> !Resets(es[m], c, k)
    ensures d in ws[h].members && k in ws[h].members[d].offsets
    ensures c in ws[j].members && c in ws[j + 1].members && k in ws[j].logs
    ensures ws[j + 1].members[c].gathered == ws[j].members[c].gathered + rs
    ensures FromOn(k, ws[j].logs[k], ws[h].members[d].offsets[k], max, rs)
  {
    assert Step(ws[h], es[h], ws[h + 1]);
    CommittedStays(ws, es, h + 1, i, k);
    rs := ResumesAtCommitted(ws, es, i, j, c, k, max);
  }

  /** And a member that keeps polling goes on where its last fetch ended. */
  lemma GoesOnWhereItEnded(ws: seq<World>, es: seq<Event>, i: nat, j: nat, c: nat, k: PartitionAssignment, m: u32, n: u32)
    returns (o: nat, first: seq<Fetched>, second: seq<Fetched>)
    requires Trace(ws, es) && i < j < |es| && es[i] == Fetch(c, k, m) && es[j] == Fetch(c, k, n)
    requires forall e :: i < e < j ==> !Resets(es[e], c, k)
    ensures c in ws[i].members && c in ws[i + 1].members && k in ws[i].logs
    ensures c in ws[j].members && c in ws[j + 1].members && k in ws[j].logs
    ensures ws[i + 1].members[c].gathered == ws[i].members[c].gathered + first
    ensures ws[j + 1].members[c].gathered == ws[j].members[c].gathered + second
    ensures FromOn(k, ws[i].logs[k], o, m, first) && FromOn(k, ws[j].logs[k], o + |first|, n, second)
  {
    first := FetchStepGathers(ws, es, i, c, k, m);
    o := OffsetOf(ws[i].members[c].offsets, k);
    TrackedStays(ws, es, i + 1, j, c, k);
    second := FetchStepGathers(ws, es, j, c, k, n);
  }

  // ------------------------------------------- the code's calls are such runs

  lemma ReachMore(w: World, es: seq<Event>, m: World, e: Event, w': World)
    requires Reach(w, es, m) && HarmlessStep(m, e, w')
    ensures Reach(w, es + [e], w')
  {
    assert (es + [e])[..|es + [e]| - 1] == es && (es + [e])[|es + [e]| - 1] == e;
  }

  function Fetches(c: nat, ks: seq<PartitionAssignment>, max: u32): seq<Event> {
    seq(|ks|, i requires 0 <= i < |ks| => Fetch(c, ks[i], max))
  }

  lemma {:induction false} FetchesReach(w: World, c: nat, ks: seq<PartitionAssignment>, max: u32)
    requires c in w.members && Exist(w.logs, ks)
    ensures Reach(w, Fetches(c, ks, max), w.Put(c, FetchAll(w.logs, max, w.members[c], ks)))
  {
    if |ks| == 0 {
      assert w.members[c := w.members[c]] == w.members;
    } else {
      var front, last := ks[..|ks| - 1], ks[|ks| - 1];
      var t := FetchAll(w.logs, max, w.members[c], front);
      FetchesReach(w, c, front, max);
      FetchStep(w, c, t, last, max);
      LastFetch(c, ks, max);
      ReachMore(w, Fetches(c, front, max), w.Put(c, t), Fetch(c, last, max), w.Put(c, FetchOne(w.logs, max, t, last)));
    }
  }

  lemma LastFetch(c: nat, ks: seq<PartitionAssignment>, max: u32)
    requires |ks| > 0
    ensures Fetches(c, ks, max) == Fetches(c, ks[..|ks| - 1], max) + [Fetch(c, ks[|ks| - 1], max)]
  {
  }

  lemma FetchStep(w: World, c: nat, t: Tracker, k: PartitionAssignment, max: u32)
    requires k in w.logs
    ensures HarmlessStep(w.Put(c, t), Fetch(c, k, max), w.Put(c, FetchOne(w.logs, max, t, k)))
  {
    var t' := FetchOne(w.logs, max, t, k);
    assert w.members[c := t][c := t'] == w.members[c := t'];
  }

  /** A poll_group call that returns Ok, as PollGroup's contract describes it,
      is such a run, and delivers what it returns. */
  lemma PollReaches(w: World, c: nat, ks: seq<PartitionAssignment>, max: u32, offsets: Offsets, records: seq<Fetched>)
    requires c in w.members && w.members[c].gathered == [] && Exist(w.logs, ks)
    requires Tracker(offsets, records) == FetchAll(w.logs, max, w.members[c], ks)
    ensures Reach(w, Fetches(c, ks, max) + [Return(c)],
                  w.Put(c, Tracker(offsets, [])).(delivered := w.delivered + Records(records)))
  {
    FetchesReach(w, c, ks, max);
    var m := w.Put(c, Tracker(offsets, records));
    var w' := w.Put(c, Tracker(offsets, [])).(delivered := w.delivered + Records(records));
    ReturnStep(w, c, offsets, records);
    ReachMore(w, Fetches(c, ks, max), m, Return(c), w');
  }

  lemma ReturnStep(w: World, c: nat, offsets: Offsets, records: seq<Fetched>)
    ensures HarmlessStep(w.Put(c, Tracker(offsets, records)), Return(c),
                        w.Put(c, Tracker(offsets, [])).(delivered := w.delivered + Records(records)))
  {
    var there := Tracker(offsets, []);
    assert w.members[c := Tracker(offsets, records)][c := there] == w.members[c := there];
  }

  function Restores(c: nat, ks: seq<PartitionAssignment>): seq<Event> {
    seq(|ks|, i requires 0 <= i < |ks| => Restore(c, ks[i]))
  }

  /** So is a join, as JoinGroup's contract describes it, however many of its
      offset requests are answered. */
  lemma {:induction false} JoinReaches(w: World, c: nat, ks: seq<PartitionAssignment>)
    requires c in w.members && w.members[c].gathered == []
    ensures Reach(w, Restores(c, ks), w.Put(c, Tracker(RestoreAll(w.committed, w.members[c].offsets, ks), [])))
  {
    if |ks| == 0 {
      assert w.members[c := w.members[c]] == w.members;
    } else {
      var front, last := ks[..|ks| - 1], ks[|ks| - 1];
      JoinReaches(w, c, front);
      var m := w.Put(c, Tracker(RestoreAll(w.committed, w.members[c].offsets, front), []));
      var w' := w.Put(c, Tracker(RestoreAll(w.committed, w.members[c].offsets, ks), []));
      assert Restores(c, ks) == Restores(c, front) + [Restore(c, last)];
      assert HarmlessStep(m, Restore(c, last), w');
      ReachMore(w, Restores(c, front), m, Restore(c, last), w');
    }
  }

  /** And a commit, however many of its requests go through. */
  lemma {:induction false} CommitReaches(w: World, c: nat, sent: set<PartitionAssignment>) returns (es: seq<Event>)
    requires c in w.members && sent <= w.members[c].offsets.Keys
    ensures Reach(w, es, w.(committed := Sent(w.committed, w.members[c].offsets, sent)))
  {
    var offsets := w.members[c].offsets;
    if sent == {} {
      es := [];
      NothingSent(w.committed, offsets);
    } else {
      var k :| k in sent;
      es := CommitReaches(w, c, sent - {k});
      var m := w.(committed := Sent(w.committed, offsets, sent - {k}));
      var w' := w.(committed := Sent(w.committed, offsets, sent));
      SentOneMore(w.committed, offsets, sent - {k}, k);
      assert sent - {k} + {k} == sent;
      assert HarmlessStep(m, Commit(c, k), w');
      ReachMore(w, es, m, Commit(c, k), w');
      es := es + [Commit(c, k)];
    }
  }

  /** One partition with one record. */
  function Small(k: PartitionAssignment, r: Record, committed: Offsets, members: map<nat, Tracker>): World {
    World(map[k := [r]], committed, members, {})
  }

  lemma SmallFetch(k: PartitionAssignment, r: Record)
    requires r.offset == 0
    ensures HarmlessStep(Small(k, r, map[], map[0 := Tracker(map[], [])]), Fetch(0, k, 1),
                        Small(k, r, map[], map[0 := Tracker(map[k := 1], [RecordAt(map[k := [r]], k, 0)])]))
  {
    var w := Small(k, r, map[], map[0 := Tracker(map[], [])]);
    Partition.DeliverAt(k.topic, k.partition, [r], 0);
    assert Segment.Slice(w.logs[k], 0, 1) == [r];
    assert Reply(w.logs, k, 0, 1) == [RecordAt(w.logs, k, 0)];
    var t := Tracker(map[k := 1], [RecordAt(w.logs, k, 0)]);
    assert FetchOne(w.logs, 1, w.members[0], k) == t;
    assert w.members[0 := t] == map[0 := t];
  }

  lemma SmallCommit(k: PartitionAssignment, r: Record, t: Tracker)
    requires t.offsets == map[k := 1]
    ensures HarmlessStep(Small(k, r, map[], map[0 := t]), Commit(0, k), Small(k, r, map[k := 1], map[0 := t]))
  {
  }

  lemma SmallStart(k: PartitionAssignment, r: Record)
    ensures Reach(Small(k, r, map[], map[]), [Connect(0)], Small(k, r, map[], map[0 := Tracker(map[], [])]))
  {
    var w := Small(k, r, map[], map[]);
    ReachMore(w, [], w, Connect(0), Small(k, r, map[], map[0 := Tracker(map[], [])]));
    assert [] + [Connect(0)] == [Connect(0)];
  }

  /** A member fetches the record, and its poll commits it. */
  lemma SmallRun(k: PartitionAssignment, r: Record, t: Tracker)
    requires r.offset == 0 && t == Tracker(map[k := 1], [RecordAt(map[k := [r]], k, 0)])
    ensures Reach(Small(k, r, map[], map[]), [Connect(0)] + [Fetch(0, k, 1)] + [Commit(0, k)], Small(k, r, map[k := 1], map[0 := t]))
  {
    var w := Small(k, r, map[], map[]);
    SmallStart(k, r);
    SmallFetch(k, r);
    ReachMore(w, [Connect(0)], Small(k, r, map[], map[0 := Tracker(map[], [])]), Fetch(0, k, 1), Small(k, r, map[], map[0 := t]));
    SmallCommit(k, r, t);
    ReachMore(w, [Connect(0)] + [Fetch(0, k, 1)], Small(k, r, map[], map[0 := t]),
              Commit(0, k), Small(k, r, map[k := 1], map[0 := t]));
  }

  /** Auto-commit runs before poll_group returns: a member that disappears in
      between takes the record with it, committed but never delivered. */
  lemma CrashAfterAutoCommit(k: PartitionAssignment, r: Record) returns (w: World, es: seq<Event>, m: World, w': World)
    requires r.offset == 0
    ensures Initial(w) && Reach(w, es, m) && Step(m, Disconnect(0), w')
    ensures Resting(w') && Below(w'.committed, w'.members, k, 0) && w'.delivered == {}
  {
    var t := Tracker(map[k := 1], [RecordAt(map[k := [r]], k, 0)]);
    w, m := Small(k, r, map[], map[]), Small(k, r, map[k := 1], map[0 := t]);
    w' := m.(members := m.members - {0});
    es := [Connect(0)] + [Fetch(0, k, 1)] + [Commit(0, k)];
    SmallRun(k, r, t);
  }
}
