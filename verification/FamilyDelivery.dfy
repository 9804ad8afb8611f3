/** A submitted batch on its way to the consumers: families stay together and in order. */
module FamilyDelivery {
  import opened Prelude
  import opened Families
  import opened Partitions
  import opened Broker

  /** One transaction of a submitted body, with its wire bytes. */
  datatype ParsedItem = ParsedItem(tx: Parsed, raw: seq<bv8>)

  function Transactions(items: seq<ParsedItem>): (txs: seq<Parsed>)
    ensures |txs| == |items| && forall i | 0 <= i < |items| :: txs[i] == items[i].tx
  {
    seq(|items|, i requires 0 <= i < |items| => items[i].tx)
  }

  function KeyFor(keyByTxid: map<string, string>, txid: string): string
  {
    if txid in keyByTxid then keyByTxid[txid] else txid
  }

  function InputsFor(inputsByTxid: map<string, seq<string>>, txid: string): seq<string>
  {
    if txid in inputsByTxid then inputsByTxid[txid] else []
  }

  /** One message per published transaction, keyed by its family. */
  method PropagationMessages(
    toPublish: seq<ParsedItem>, keyByTxid: map<string, string>, inputsByTxid: map<string, seq<string>>)
    returns (msgs: seq<KeyValue>)
    ensures |msgs| == |toPublish|
    ensures forall i | 0 <= i < |msgs| ::
              var txid := toPublish[i].tx.txid;
              msgs[i] == KeyValue(KeyFor(keyByTxid, txid), Payload(txid, toPublish[i].raw, InputsFor(inputsByTxid, txid)))
  {
    msgs := [];
    for i := 0 to |toPublish|
      invariant |msgs| == i
      invariant forall k | 0 <= k < i ::
                  var txid := toPublish[k].tx.txid;
                  msgs[k] == KeyValue(KeyFor(keyByTxid, txid), Payload(txid, toPublish[k].raw, InputsFor(inputsByTxid, txid)))
    {
      var p, txid := toPublish[i], toPublish[i].tx.txid;
      var key := txid;
      if txid in keyByTxid {
        key := keyByTxid[txid];
      }
      msgs := msgs + [KeyValue(key, Payload(txid, p.raw, InputsFor(inputsByTxid, txid)))];
    }
  }

  // ----- order in a mailbox

  /** x stands before y in `log`. */
  ghost predicate Precedes(log: seq<Message>, x: Message, y: Message)
  {
    exists a, b :: 0 <= a < b < |log| && log[a] == x && log[b] == y
  }

  lemma {:induction false} RoutedHas(sent: seq<Message>, topic: string, p: nat, i: nat)
    requires i < |sent| && sent[i].topic == topic && sent[i].partition == p
    ensures sent[i] in Routed(sent, topic, p)
  {
    if i < |sent| - 1 {
      RoutedHas(sent[..|sent| - 1], topic, p, i);
    }
  }

  lemma {:induction false} RoutedInOrder(sent: seq<Message>, topic: string, p: nat, i: nat, j: nat)
    requires i < j < |sent| && sent[i].topic == sent[j].topic == topic && sent[i].partition == sent[j].partition == p
    ensures Precedes(Routed(sent, topic, p), sent[i], sent[j])
  {
    var before := sent[..|sent| - 1];
    var routed := Routed(before, topic, p);
    if j < |sent| - 1 {
      RoutedInOrder(before, topic, p, i, j);
      PrecedesLonger(routed, Routed(sent, topic, p), sent[i], sent[j]);
    } else {
      RoutedHas(before, topic, p, i);
      var a :| 0 <= a < |routed| && routed[a] == sent[i];
      assert Routed(sent, topic, p)[a] == sent[i] && Routed(sent, topic, p)[|routed|] == sent[j];
    }
  }

  lemma PrecedesLonger(log: seq<Message>, longer: seq<Message>, x: Message, y: Message)
    requires log <= longer && Precedes(log, x, y)
    ensures Precedes(longer, x, y)
  {
    var a, b :| 0 <= a < b < |log| && log[a] == x && log[b] == y;
    assert longer[a] == x && longer[b] == y;
  }

  lemma {:induction false} SentByHas(log: seq<Message>, me: nat, x: Message)
    requires x in SentBy(log, me)
    ensures x in log
  {
    if x != log[|log| - 1] {
      SentByHas(log[..|log| - 1], me, x);
    }
  }

  lemma {:induction false} SentByInOrder(log: seq<Message>, me: nat, x: Message, y: Message)
    requires Precedes(SentBy(log, me), x, y)
    ensures Precedes(log, x, y)
  {
    var before, last := log[..|log| - 1], log[|log| - 1];
    var sent := SentBy(log, me);
    var a, b :| 0 <= a < b < |sent| && sent[a] == x && sent[b] == y;
    if last.sender == me && b == |sent| - 1 {
      assert SentBy(before, me)[a] == x;
      SentByHas(before, me, x);
      var k :| 0 <= k < |before| && before[k] == x;
      assert log[k] == x && log[|log| - 1] == y;
    } else {
      assert SentBy(before, me)[a] == x && SentBy(before, me)[b] == y;
      SentByInOrder(before, me, x, y);
      PrecedesLonger(before, log, x, y);
    }
  }

  lemma {:induction false} SentByConcat(before: seq<Message>, more: seq<Message>, me: nat)
    ensures SentBy(before + more, me) == SentBy(before, me) + SentBy(more, me)
  {
    if more == [] {
      assert before + more == before;
    } else {
      var init := more[..|more| - 1];
      SentByConcat(before, init, me);
      assert (before + more)[..|before + more| - 1] == before + init;
    }
  }

  /** An open mailbox of the partition holds two of the batch's messages in the order they were sent. */
  lemma DeliveredInOrder(before: Mailbox, after: Mailbox, me: nat, sent: seq<Message>, i: nat, j: nat)
    requires BoxDelivered(before, after, me, sent) && !after.done && i < j < |sent|
    requires sent[i].topic == sent[j].topic == before.topic && sent[i].partition == sent[j].partition == before.partition
    ensures Precedes(after.log[|before.log|..], sent[i], sent[j])
  {
    var more := after.log[|before.log|..];
    assert before.log + more == after.log;
    SentByConcat(before.log, more, me);
    var already, routed := SentBy(before.log, me), Routed(sent, before.topic, before.partition);
    assert SentBy(more, me) == (already + SentBy(more, me))[|already|..] == (already + routed)[|already|..] == routed;
    RoutedInOrder(sent, before.topic, before.partition, i, j);
    SentByInOrder(more, me, sent[i], sent[j]);
  }

  // ----- a submission

  /** Two published transactions of one submitted family share a partition and keep their order in `after`'s new part. */
  ghost predicate FamilyKept(
    parsed: seq<Parsed>, sent: seq<Message>, before: seq<Mailbox>, after: seq<Mailbox>, i: nat, j: nat)
    requires i < j < |sent| && |before| <= |after|
  {
    Connected(parsed, sent[i].value.txid, sent[j].value.txid) ==>
      && sent[i].partition == sent[j].partition && sent[i].offset < sent[j].offset
      && forall m: nat | m < |before| && Owned(before[m], sent[i]) && !after[m].done ::
           before[m].log <= after[m].log && Precedes(after[m].log[|before[m].log|..], sent[i], sent[j])
  }

  ghost predicate Owned(box: Mailbox, msg: Message)
  {
    box.topic == msg.topic && box.partition == msg.partition
  }

  lemma FamilyInOrder(
    parsed: seq<Parsed>, keyByTxid: map<string, string>, inputsByTxid: map<string, seq<string>>, topic: string,
    msgs: seq<KeyValue>, me: nat, n: int, sent: seq<Message>, before: seq<Mailbox>, after: seq<Mailbox>, i: nat, j: nat)
    requires KeyedByTxid(parsed, keyByTxid, inputsByTxid) && n >= 1 && Routable(n)
    requires IsBatch(sent, topic, msgs, me, n) && BatchDelivered(before, after, me, sent) && i < j < |sent|
    requires sent[i].value.txid in keyByTxid && sent[j].value.txid in keyByTxid
    requires msgs[i].key == keyByTxid[sent[i].value.txid] && msgs[j].key == keyByTxid[sent[j].value.txid]
    ensures FamilyKept(parsed, sent, before, after, i, j)
  {
    var x, y := sent[i].value.txid, sent[j].value.txid;
    if Connected(parsed, x, y) {
      SameKeyIffConnected(parsed, x, keyByTxid[x], y, keyByTxid[y]);
      forall m: nat | m < |before| && Owned(before[m], sent[i]) && !after[m].done
        ensures before[m].log <= after[m].log && Precedes(after[m].log[|before[m].log|..], sent[i], sent[j])
      {
        DeliveredInOrder(before[m], after[m], me, sent, i, j);
      }
    }
  }

  /**
   Keys the whole submission, publishes what was not deduplicated out. When it succeeds, every two published
   transactions of one family are in one partition, below the topic's count, and reach each mailbox that is open
   throughout in the order they were listed.
   */
  method PublishSubmission(broker: MemoryBroker, topic: string, parsed: seq<ParsedItem>, toPublish: seq<ParsedItem>, me: nat)
    returns (err: Option<SendError>, ghost sent: seq<Message>)
    requires broker.Valid() && Routable(PartitionsFor(broker.partitions, topic))
    requires forall p | p in toPublish :: p in parsed
    modifies broker
    ensures broker.Valid()
    ensures err.None? ==> |sent| == |toPublish| && BatchDelivered(old(broker.mailboxes), broker.mailboxes, me, sent)
    ensures err.None? ==>
              forall i | 0 <= i < |sent| ::
                && sent[i].topic == topic && sent[i].partition < PartitionsFor(broker.partitions, topic)
                && sent[i].value.txid == toPublish[i].tx.txid && sent[i].value.raw == toPublish[i].raw
    ensures err.None? ==>
              forall i: nat, j: nat | i < j < |sent| ::
                FamilyKept(Transactions(parsed), sent, old(broker.mailboxes), broker.mailboxes, i, j)
  {
    var txs := Transactions(parsed);
    var keyByTxid, inputsByTxid := FamilyKeysBySubmittedTxid(txs);
    var msgs := PropagationMessages(toPublish, keyByTxid, inputsByTxid);
    ghost var before, n := broker.mailboxes, PartitionsFor(broker.partitions, topic);
    err, sent := broker.SendBatch(topic, msgs, me);
    if err.None? {
      forall i | 0 <= i < |toPublish|
        ensures toPublish[i].tx.txid in keyByTxid
      {
        assert toPublish[i] in parsed;
        var k :| 0 <= k < |parsed| && parsed[k] == toPublish[i];
        assert txs[k] in txs;
        FirstIndexInBatch(txs, toPublish[i].tx.txid);
      }
      forall i: nat, j: nat | i < j < |sent|
        ensures FamilyKept(txs, sent, before, broker.mailboxes, i, j)
      {
        FamilyInOrder(txs, keyByTxid, inputsByTxid, topic, msgs, me, n, sent, before, broker.mailboxes, i, j);
      }
    }
  }
}
