/**
 The in-memory broker under interference: between any two atomic steps of a publish, other producers, subscribers and a
 closer may act.
 */
module Broker {
  import opened Prelude
  import opened Partitions

  /** What is published of a transaction: its txid, its wire bytes and the source txids of its inputs. */
  datatype Payload = Payload(txid: string, raw: seq<bv8>, inputs: seq<string>)
  datatype KeyValue = KeyValue(key: string, value: Payload)

  /** Whether a value can be marshalled. */
  const MARSHALS: Payload -> bool

  /** `sender` identifies the call that published it. */
  datatype Message = Message(topic: string, key: string, value: Payload, partition: nat, offset: nat, sender: nat)

  /** A delivery queue: everything ever enqueued on it, in order, and whether it has been torn down. */
  datatype Mailbox = Mailbox(group: string, topic: string, partition: nat, log: seq<Message>, done: bool)

  datatype SendError = Closed | MarshalFailed | ContextDone | Backpressure

  /** The messages one sender enqueued. */
  function SentBy(log: seq<Message>, sender: nat): seq<Message>
  {
    if log == [] then []
    else
      var before, last := SentBy(log[..|log| - 1], sender), log[|log| - 1];
      if last.sender == sender then before + [last] else before
  }

  /** The messages of one topic and partition. */
  function Routed(sent: seq<Message>, topic: string, partition: nat): seq<Message>
  {
    if sent == [] then []
    else
      var before, last := Routed(sent[..|sent| - 1], topic, partition), sent[|sent| - 1];
      if last.topic == topic && last.partition == partition then before + [last] else before
  }

  /** What others' steps may do to a mailbox: enqueue messages of their own, and tear it down. */
  ghost predicate BoxEvolves(before: Mailbox, after: Mailbox, me: nat)
  {
    && after.group == before.group && after.topic == before.topic && after.partition == before.partition
    && before.log <= after.log && SentBy(after.log, me) == SentBy(before.log, me)
    && (before.done ==> after.done)
  }

  ghost predicate Evolves(before: seq<Mailbox>, after: seq<Mailbox>, me: nat)
  {
    |before| <= |after| && forall m: nat | m < |before| :: BoxEvolves(before[m], after[m], me)
  }

  ghost predicate OffsetsGrow(before: map<(string, nat), nat>, after: map<(string, nat), nat>)
  {
    forall tp | tp in before :: tp in after && before[tp] <= after[tp]
  }

  ghost predicate Owns(box: Mailbox, gt: (string, string), p: nat)
  {
    box.group == gt.0 && box.topic == gt.1 && box.partition == p
  }

  /** Partition p of a group's topic is one of the mailboxes, and its own. */
  ghost predicate GroupBox(groups: map<(string, string), seq<nat>>, mailboxes: seq<Mailbox>, gt: (string, string), p: nat)
    requires gt in groups && p < |groups[gt]|
  {
    groups[gt][p] < |mailboxes| && Owns(mailboxes[groups[gt][p]], gt, p)
  }

  /** An open mailbox is the one its group has for its topic and partition. */
  ghost predicate BoxRegistered(groups: map<(string, string), seq<nat>>, mailboxes: seq<Mailbox>, m: nat)
    requires m < |mailboxes|
  {
    var box := mailboxes[m];
    var gt := (box.group, box.topic);
    box.done || (gt in groups && box.partition < |groups[gt]| && groups[gt][box.partition] == m)
  }

  /** Every group's mailboxes are its own, one per partition, and every open mailbox is its group's. */
  ghost predicate Registered(
    partitions: map<string, int>, groups: map<(string, string), seq<nat>>, mailboxes: seq<Mailbox>)
  {
    && (forall gt | gt in groups :: |groups[gt]| == PartitionsFor(partitions, gt.1))
    && (forall gt, p: nat | gt in groups && p < |groups[gt]| :: GroupBox(groups, mailboxes, gt, p))
    && forall m: nat | m < |mailboxes| :: BoxRegistered(groups, mailboxes, m)
  }

  lemma TopicRegistered(
    partitions: map<string, int>, groups: map<(string, string), seq<nat>>, mailboxes: seq<Mailbox>,
    gt: (string, string), ids: seq<nat>, boxes: seq<Mailbox>)
    requires Registered(partitions, groups, mailboxes) && gt !in groups
    requires |ids| == |boxes| == PartitionsFor(partitions, gt.1)
    requires forall p: nat | p < |ids| :: ids[p] == |mailboxes| + p && Owns(boxes[p], gt, p)
    ensures Registered(partitions, groups[gt := ids], mailboxes + boxes)
  {
    var groups', mailboxes' := groups[gt := ids], mailboxes + boxes;
    forall g, p: nat | g in groups' && p < |groups'[g]|
      ensures GroupBox(groups', mailboxes', g, p)
    {
      assert g != gt ==> GroupBox(groups, mailboxes, g, p);
    }
    forall m: nat | m < |mailboxes'|
      ensures BoxRegistered(groups', mailboxes', m)
    {
      if m < |mailboxes| {
        assert BoxRegistered(groups, mailboxes, m);
      } else {
        var p := m - |mailboxes|;
        assert Owns(boxes[p], gt, p) && ids[p] == m;
      }
    }
  }

  /** Replacing a mailbox by one of the same place keeps the registration. */
  lemma BoxReplaced(
    partitions: map<string, int>, groups: map<(string, string), seq<nat>>, mailboxes: seq<Mailbox>, m: nat, box: Mailbox)
    requires Registered(partitions, groups, mailboxes) && m < |mailboxes|
    requires box == mailboxes[m].(log := box.log)
    ensures Registered(partitions, groups, mailboxes[m := box])
  {
    var mailboxes' := mailboxes[m := box];
    forall g, p: nat | g in groups && p < |groups[g]|
      ensures GroupBox(groups, mailboxes', g, p)
    {
      assert GroupBox(groups, mailboxes, g, p);
    }
    forall k: nat | k < |mailboxes'|
      ensures BoxRegistered(groups, mailboxes', k)
    {
      assert BoxRegistered(groups, mailboxes, k);
    }
  }

  lemma EvolvesTransitive(a: seq<Mailbox>, b: seq<Mailbox>, c: seq<Mailbox>, me: nat)
    requires Evolves(a, b, me) && Evolves(b, c, me)
    ensures Evolves(a, c, me)
  {
    forall m: nat | m < |a|
      ensures BoxEvolves(a[m], c[m], me)
    {
      assert BoxEvolves(a[m], b[m], me) && BoxEvolves(b[m], c[m], me);
    }
  }

  lemma MoreEvolves(before: seq<Mailbox>, after: seq<Mailbox>, me: nat)
    requires before <= after
    ensures Evolves(before, after, me)
  {
    forall m: nat | m < |before|
      ensures BoxEvolves(before[m], after[m], me)
    {
    }
  }

  lemma OthersMessage(mailboxes: seq<Mailbox>, m: nat, msg: Message, me: nat)
    requires m < |mailboxes| && msg.sender != me
    ensures Evolves(mailboxes, mailboxes[m := mailboxes[m].(log := mailboxes[m].log + [msg])], me)
  {
    SentByLast(mailboxes[m].log, msg, me);
    var after := mailboxes[m := mailboxes[m].(log := mailboxes[m].log + [msg])];
    forall k: nat | k < |mailboxes|
      ensures BoxEvolves(mailboxes[k], after[k], me)
    {
    }
  }

  lemma SentByLast(log: seq<Message>, msg: Message, sender: nat)
    ensures SentBy(log + [msg], sender) == if msg.sender == sender then SentBy(log, sender) + [msg] else SentBy(log, sender)
  {
    assert (log + [msg])[..|log|] == log;
  }

  // ----- one publish

  /**
   A mailbox after a publish of `msg`. A recipient has it exactly once, unless it was torn down meanwhile; any other
   mailbox does not have it.
   */
  ghost predicate BoxReceives(before: Mailbox, after: Mailbox, me: nat, msg: Message, recipient: bool)
  {
    && after.group == before.group && after.topic == before.topic && after.partition == before.partition
    && before.log <= after.log && (before.done ==> after.done)
    && var sent := SentBy(before.log, me);
       if recipient then SentBy(after.log, me) == sent + [msg] || (after.done && SentBy(after.log, me) == sent)
       else SentBy(after.log, me) == sent
  }

  ghost predicate ReceivedBy(before: seq<Mailbox>, after: seq<Mailbox>, me: nat, msg: Message, recipients: seq<nat>)
  {
    |before| <= |after| && forall m: nat | m < |before| :: BoxReceives(before[m], after[m], me, msg, m in recipients)
  }

  lemma ReceivedThenEvolves(
    a: seq<Mailbox>, b: seq<Mailbox>, c: seq<Mailbox>, me: nat, msg: Message, recipients: seq<nat>)
    requires ReceivedBy(a, b, me, msg, recipients) && Evolves(b, c, me)
    ensures ReceivedBy(a, c, me, msg, recipients)
  {
    forall m: nat | m < |a|
      ensures BoxReceives(a[m], c[m], me, msg, m in recipients)
    {
      assert BoxReceives(a[m], b[m], me, msg, m in recipients) && BoxEvolves(b[m], c[m], me);
    }
  }

  /** One more target is either served or gone. */
  lemma ReceivedOneMore(
    a: seq<Mailbox>, b: seq<Mailbox>, c: seq<Mailbox>, me: nat, msg: Message, recipients: seq<nat>, m: nat)
    requires ReceivedBy(a, b, me, msg, recipients) && m < |b| == |c| && m !in recipients
    requires (c == b[m := b[m].(log := b[m].log + [msg])] && msg.sender == me) || (c == b && b[m].done)
    ensures ReceivedBy(a, c, me, msg, recipients + [m])
  {
    SentByLast(b[m].log, msg, me);
    forall k: nat | k < |a|
      ensures BoxReceives(a[k], c[k], me, msg, k in recipients + [m])
    {
      assert BoxReceives(a[k], b[k], me, msg, k in recipients);
    }
  }

  /** The offset the next message of a topic's partition gets. */
  function NextOffset(offsets: map<(string, nat), nat>, tp: (string, nat)): nat
  {
    if tp in offsets then offsets[tp] else 0
  }

  /** The mailboxes a message of (topic, p) is for: all open ones of that place, each once. */
  ghost predicate IsSnapshot(mailboxes: seq<Mailbox>, topic: string, p: nat, targets: seq<nat>)
  {
    && (forall i | 0 <= i < |targets| :: targets[i] < |mailboxes|)
    && (forall i | 0 <= i < |targets| :: mailboxes[targets[i]].topic == topic && mailboxes[targets[i]].partition == p)
    && (forall i, j | 0 <= i < j < |targets| :: targets[i] != targets[j])
    && forall m | 0 <= m < |mailboxes| && mailboxes[m].topic == topic && mailboxes[m].partition == p && !mailboxes[m].done ::
         m in targets
  }

  class MemoryBroker {
    const partitions: map<string, int>
    var closed: bool
    var groups: map<(string, string), seq<nat>>
    var mailboxes: seq<Mailbox>
    var offsets: map<(string, nat), nat>

    ghost predicate Valid()
      reads this
    {
      Registered(partitions, groups, mailboxes) && (closed ==> groups == map[])
    }

    constructor (partitions: map<string, int>)
      ensures Valid() && !closed && groups == map[] && mailboxes == [] && offsets == map[]
      ensures this.partitions == partitions
    {
      this.partitions := partitions;
      closed, groups, mailboxes, offsets := false, map[], [], map[];
    }

    /** Joins a group's mailboxes for each topic, making them on first use. */
    method Subscribe(group: string, topics: seq<string>, ghost me: nat) returns (err: Option<SendError>)
      requires Valid()
      modifies this`groups, this`mailboxes
      ensures Valid() && Evolves(old(mailboxes), mailboxes, me)
      ensures err.Some? <==> closed
      ensures err.Some? ==> groups == old(groups) && mailboxes == old(mailboxes)
      ensures old(mailboxes) <= mailboxes && forall gt | gt in old(groups) :: gt in groups && groups[gt] == old(groups)[gt]
      ensures err.None? ==> groups.Keys == old(groups.Keys) + set t | t in topics :: (group, t)
    {
      if closed {
        MoreEvolves(mailboxes, mailboxes, me);
        return Some(Closed);
      }
      for i := 0 to |topics|
        invariant Valid() && old(mailboxes) <= mailboxes
        invariant forall gt | gt in old(groups) :: gt in groups && groups[gt] == old(groups)[gt]
        invariant groups.Keys == old(groups.Keys) + set t | t in topics[..i] :: (group, t)
      {
        if (group, topics[i]) !in groups {
          MakeMailboxes(group, topics[i]);
        }
        assert topics[..i + 1] == topics[..i] + [topics[i]];
      }
      assert topics[..|topics|] == topics;
      MoreEvolves(old(mailboxes), mailboxes, me);
      return None;
    }

    method MakeMailboxes(group: string, topic: string)
      requires Valid() && !closed && (group, topic) !in groups
      modifies this`groups, this`mailboxes
      ensures Valid() && old(mailboxes) <= mailboxes
      ensures (group, topic) in groups && groups == old(groups)[(group, topic) := groups[(group, topic)]]
    {
      var n, size := PartitionsFor(partitions, topic), |mailboxes|;
      var boxes := seq(n, p requires 0 <= p < n => Mailbox(group, topic, p, [], false));
      var ids := seq(n, p requires 0 <= p < n => size + p);
      TopicRegistered(partitions, groups, mailboxes, (group, topic), ids, boxes);
      groups := groups[(group, topic) := ids];
      mailboxes := mailboxes + boxes;
    }

    /** Signals every mailbox and forgets the groups. */
    method Close(ghost me: nat)
      requires Valid()
      modifies this`closed, this`groups, this`mailboxes
      ensures Valid() && closed && Evolves(old(mailboxes), mailboxes, me)
      ensures old(closed) || forall m | 0 <= m < |mailboxes| :: mailboxes[m].done
    {
      if closed {
        return;
      }
      closed := true;
      var was := mailboxes;
      mailboxes := seq(|was|, m requires 0 <= m < |was| => was[m].(done := true));
      groups := map[];
    }

    /** Any number of others' steps: subscribing, closing, reserving an offset, enqueueing a message of their own. */
    method Interfere(me: nat)
      requires Valid()
      modifies this`closed, this`groups, this`mailboxes, this`offsets
      ensures Valid() && Evolves(old(mailboxes), mailboxes, me) && OffsetsGrow(old(offsets), offsets)
    {
      var rounds: int := *;
      while rounds > 0
        invariant Valid() && Evolves(old(mailboxes), mailboxes, me) && OffsetsGrow(old(offsets), offsets)
      {
        ghost var before := mailboxes;
        OtherStep(me);
        EvolvesTransitive(old(mailboxes), before, mailboxes, me);
        rounds := rounds - 1;
      }
    }

    method OtherStep(me: nat)
      requires Valid()
      modifies this`closed, this`groups, this`mailboxes, this`offsets
      ensures Valid() && Evolves(old(mailboxes), mailboxes, me) && OffsetsGrow(old(offsets), offsets)
    {
      var group: string, topics: seq<string>, tp: (string, nat), m: nat, msg: Message := *, *, *, *, *;
      var choice: nat := *;
      if choice == 0 {
        var _ := Subscribe(group, topics, me);
      } else if choice == 1 {
        Close(me);
      } else if choice == 2 || m >= |mailboxes| || msg.sender == me {
        MoreEvolves(mailboxes, mailboxes, me);
        offsets := offsets[tp := NextOffset(offsets, tp) + 1];
      } else {
        OthersMessage(mailboxes, m, msg, me);
        Enqueue(m, msg);
      }
    }

    method Enqueue(m: nat, msg: Message)
      requires Valid() && m < |mailboxes|
      modifies this`mailboxes
      ensures Valid() && mailboxes == old(mailboxes[m := mailboxes[m].(log := mailboxes[m].log + [msg])])
    {
      var box := mailboxes[m].(log := mailboxes[m].log + [msg]);
      BoxReplaced(partitions, groups, mailboxes, m, box);
      mailboxes := mailboxes[m := box];
    }

    /** The mailboxes that care about a topic's partition, in whatever order the groups come. */
    method Snapshot(topic: string, p: nat) returns (targets: seq<nat>)
      requires Valid()
      ensures IsSnapshot(mailboxes, topic, p, targets)
    {
      targets := [];
      var rest := groups.Keys;
      while rest != {}
        invariant rest <= groups.Keys
        invariant forall i | 0 <= i < |targets| ::
                    && targets[i] < |mailboxes|
                    && mailboxes[targets[i]].topic == topic && mailboxes[targets[i]].partition == p
                    && (mailboxes[targets[i]].group, topic) !in rest
        invariant forall i, j | 0 <= i < j < |targets| :: targets[i] != targets[j]
        invariant forall gt | gt in groups && gt !in rest && gt.1 == topic && p < |groups[gt]| :: groups[gt][p] in targets
        decreases |rest|
      {
        var gt :| gt in rest;
        rest := rest - {gt};
        if gt.1 == topic && p < |groups[gt]| {
          assert GroupBox(groups, mailboxes, gt, p);
          targets := targets + [groups[gt][p]];
        }
      }
      forall m | 0 <= m < |mailboxes| && mailboxes[m].topic == topic && mailboxes[m].partition == p && !mailboxes[m].done
        ensures m in targets
      {
        assert BoxRegistered(groups, mailboxes, m);
      }
    }

    /** One bounded wait: the message is enqueued, or the mailbox is gone, or the context or the timer fires. */
    method SendTo(m: nat, msg: Message, me: nat, ghost start: seq<Mailbox>, ghost recipients: seq<nat>)
      returns (err: Option<SendError>)
      requires Valid() && m < |mailboxes| && msg.sender == me && m !in recipients
      requires ReceivedBy(start, mailboxes, me, msg, recipients)
      modifies this`closed, this`groups, this`mailboxes, this`offsets
      ensures Valid() && |old(mailboxes)| <= |mailboxes| && OffsetsGrow(old(offsets), offsets)
      ensures ReceivedBy(start, mailboxes, me, msg, if err.None? then recipients + [m] else recipients)
    {
      ghost var before := mailboxes;
      Interfere(me);
      ReceivedThenEvolves(start, before, mailboxes, me, msg, recipients);
      before := mailboxes;
      if mailboxes[m].done {
        ReceivedOneMore(start, mailboxes, mailboxes, me, msg, recipients, m);
        return None;
      }
      Interfere(me);
      ReceivedThenEvolves(start, before, mailboxes, me, msg, recipients);
      var ready: nat := *;
      if ready == 0 {
        return Some(ContextDone);
      } else if ready == 1 {
        return Some(Backpressure);
      }
      before := mailboxes;
      if ready == 2 && mailboxes[m].done {
        ReceivedOneMore(start, mailboxes, mailboxes, me, msg, recipients, m);
        return None;
      }
      Enqueue(m, msg);
      ReceivedOneMore(start, before, mailboxes, me, msg, recipients, m);
      return None;
    }

    /** Publishes to the key's partition, waiting for each of its mailboxes in turn. */
    method Publish(topic: string, key: string, value: Payload, me: nat) returns (err: Option<SendError>, ghost msg: Message)
      requires Valid() && Routable(PartitionsFor(partitions, topic))
      modifies this`closed, this`groups, this`mailboxes, this`offsets
      ensures Valid() && OffsetsGrow(old(offsets), offsets)
      ensures var p := PartitionForKey(key, PartitionsFor(partitions, topic));
              msg == Message(topic, key, value, p, msg.offset, me) && NextOffset(old(offsets), (topic, p)) <= msg.offset
      ensures err.None? ==> msg.offset < NextOffset(offsets, (topic, msg.partition))
      ensures err.None? ==> Published(old(mailboxes), mailboxes, me, msg)
    {
      ghost var start := mailboxes;
      Interfere(me);
      var p := PartitionForKey(key, PartitionsFor(partitions, topic));
      var message := Message(topic, key, value, p, NextOffset(offsets, (topic, p)), me);
      msg := message;
      if closed {
        return Some(Closed), msg;
      }
      offsets := offsets[(topic, p) := message.offset + 1];
      var targets := Snapshot(topic, p);
      ghost var snapshot := mailboxes;
      err := Deliver(targets, message, me);
      if err.None? {
        ReceivedIsPublished(start, snapshot, mailboxes, me, msg, targets);
      }
    }

    /**
     Publishes one message after the other. When it succeeds, each message is in its key's partition, the offsets within
     a partition increase, and every mailbox open throughout has exactly its partition's messages, in order.
     */
    method SendBatch(topic: string, msgs: seq<KeyValue>, me: nat) returns (err: Option<SendError>, ghost sent: seq<Message>)
      requires Valid() && Routable(PartitionsFor(partitions, topic))
      modifies this`closed, this`groups, this`mailboxes, this`offsets
      ensures Valid() && IsBatch(sent, topic, msgs, me, PartitionsFor(partitions, topic))
      ensures err.None? <==> |sent| == |msgs|
      ensures BatchDelivered(old(mailboxes), mailboxes, me, sent) || err.Some?
    {
      sent := [];
      NothingDelivered(mailboxes, me);
      for i := 0 to |msgs|
        invariant Valid() && |sent| == i && IsBatch(sent, topic, msgs, me, PartitionsFor(partitions, topic))
        invariant BatchDelivered(old(mailboxes), mailboxes, me, sent) && Reserved(sent, offsets)
      {
        var m := msgs[i];
        if !MARSHALS(m.value) {
          return Some(MarshalFailed), sent;
        }
        ghost var before, reserved := mailboxes, offsets;
        ghost var msg;
        err, msg := Publish(topic, m.key, m.value, me);
        if err.Some? {
          return;
        }
        DeliveredOneMore(old(mailboxes), before, mailboxes, me, sent, msg);
        ReservedOneMore(sent, reserved, offsets, msg);
        sent := sent + [msg];
      }
      err := None;
    }

    /** Waits for each target in turn, and stops at the first that cannot take the message. */
    method Deliver(targets: seq<nat>, msg: Message, me: nat) returns (err: Option<SendError>)
      requires Valid() && msg.sender == me && IsSnapshot(mailboxes, msg.topic, msg.partition, targets)
      modifies this`closed, this`groups, this`mailboxes, this`offsets
      ensures Valid() && OffsetsGrow(old(offsets), offsets)
      ensures exists served :: served <= targets && ReceivedBy(old(mailboxes), mailboxes, me, msg, served)
      ensures err.None? ==> ReceivedBy(old(mailboxes), mailboxes, me, msg, targets)
    {
      ghost var snapshot := mailboxes;
      NoneReceived(snapshot, mailboxes, me, msg);
      for i := 0 to |targets|
        invariant Valid() && OffsetsGrow(old(offsets), offsets)
        invariant |snapshot| <= |mailboxes| && ReceivedBy(snapshot, mailboxes, me, msg, targets[..i])
      {
        err := SendTo(targets[i], msg, me, snapshot, targets[..i]);
        if err.Some? {
          return;
        }
        assert targets[..i] + [targets[i]] == targets[..i + 1];
      }
      err := None;
      assert targets[..|targets|] == targets;
    }
  }

  lemma NoneReceived(a: seq<Mailbox>, b: seq<Mailbox>, me: nat, msg: Message)
    requires a == b
    ensures ReceivedBy(a, b, me, msg, [])
  {
    forall m: nat | m < |a|
      ensures BoxReceives(a[m], b[m], me, msg, false)
    {
    }
  }

  /** A mailbox that is still open has the message, once, exactly if it is of the message's topic and partition. */
  ghost predicate BoxPublished(before: Mailbox, after: Mailbox, me: nat, msg: Message)
  {
    && after.group == before.group && after.topic == before.topic && after.partition == before.partition
    && before.log <= after.log && (before.done ==> after.done)
    && (!after.done ==> SentBy(after.log, me) == SentBy(before.log, me) + Routed([msg], before.topic, before.partition))
  }

  ghost predicate Published(before: seq<Mailbox>, after: seq<Mailbox>, me: nat, msg: Message)
  {
    |before| <= |after| && forall m: nat | m < |before| :: BoxPublished(before[m], after[m], me, msg)
  }

  lemma ReceivedIsPublished(
    start: seq<Mailbox>, snapshot: seq<Mailbox>, end: seq<Mailbox>, me: nat, msg: Message, targets: seq<nat>)
    requires Evolves(start, snapshot, me) && ReceivedBy(snapshot, end, me, msg, targets)
    requires IsSnapshot(snapshot, msg.topic, msg.partition, targets)
    ensures Published(start, end, me, msg)
  {
    forall m: nat | m < |start|
      ensures BoxPublished(start[m], end[m], me, msg)
    {
      assert BoxEvolves(start[m], snapshot[m], me) && BoxReceives(snapshot[m], end[m], me, msg, m in targets);
      assert [msg][..0] == [];
    }
  }

  // ----- a batch

  /** The first |sent| messages of the batch, each in its key's partition, with offsets that increase per partition. */
  ghost predicate IsBatch(sent: seq<Message>, topic: string, msgs: seq<KeyValue>, me: nat, n: int)
    requires n >= 1 && Routable(n)
  {
    && |sent| <= |msgs|
    && (forall i | 0 <= i < |sent| ::
          && sent[i].topic == topic && sent[i].key == msgs[i].key && sent[i].value == msgs[i].value && sent[i].sender == me
          && sent[i].partition == PartitionForKey(msgs[i].key, n))
    && forall i, j | 0 <= i < j < |sent| && sent[i].partition == sent[j].partition :: sent[i].offset < sent[j].offset
  }

  /** The next offsets are above those given out. */
  ghost predicate Reserved(sent: seq<Message>, offsets: map<(string, nat), nat>)
  {
    forall i | 0 <= i < |sent| :: sent[i].offset < NextOffset(offsets, (sent[i].topic, sent[i].partition))
  }

  lemma ReservedOneMore(sent: seq<Message>, before: map<(string, nat), nat>, after: map<(string, nat), nat>, msg: Message)
    requires Reserved(sent, before) && OffsetsGrow(before, after)
    requires NextOffset(before, (msg.topic, msg.partition)) <= msg.offset < NextOffset(after, (msg.topic, msg.partition))
    ensures Reserved(sent + [msg], after)
    ensures forall i | 0 <= i < |sent| && sent[i].topic == msg.topic && sent[i].partition == msg.partition ::
              sent[i].offset < msg.offset
  {
  }

  ghost predicate BoxDelivered(before: Mailbox, after: Mailbox, me: nat, sent: seq<Message>)
  {
    && after.group == before.group && after.topic == before.topic && after.partition == before.partition
    && before.log <= after.log && (before.done ==> after.done)
    && (!after.done ==> SentBy(after.log, me) == SentBy(before.log, me) + Routed(sent, before.topic, before.partition))
  }

  ghost predicate BatchDelivered(before: seq<Mailbox>, after: seq<Mailbox>, me: nat, sent: seq<Message>)
  {
    |before| <= |after| && forall m: nat | m < |before| :: BoxDelivered(before[m], after[m], me, sent)
  }

  lemma NothingDelivered(mailboxes: seq<Mailbox>, me: nat)
    ensures BatchDelivered(mailboxes, mailboxes, me, [])
  {
    forall m: nat | m < |mailboxes|
      ensures BoxDelivered(mailboxes[m], mailboxes[m], me, [])
    {
    }
  }

  lemma DeliveredOneMore(
    a: seq<Mailbox>, b: seq<Mailbox>, c: seq<Mailbox>, me: nat, sent: seq<Message>, msg: Message)
    requires BatchDelivered(a, b, me, sent) && Published(b, c, me, msg)
    ensures BatchDelivered(a, c, me, sent + [msg])
  {
    forall m: nat | m < |a|
      ensures BoxDelivered(a[m], c[m], me, sent + [msg])
    {
      assert BoxDelivered(a[m], b[m], me, sent) && BoxPublished(b[m], c[m], me, msg);
      RoutedOneMore(sent, msg, a[m].topic, a[m].partition);
    }
  }

  lemma RoutedOneMore(sent: seq<Message>, msg: Message, topic: string, partition: nat)
    ensures Routed(sent + [msg], topic, partition) == Routed(sent, topic, partition) + Routed([msg], topic, partition)
  {
    assert (sent + [msg])[..|sent|] == sent && [msg][..0] == [];
  }
}
